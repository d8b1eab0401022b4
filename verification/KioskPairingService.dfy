/** The pairing operations as the server runs them, on its own tables. */
module KioskPairingService {
  import opened Common
  import opened KioskPairing

  const CODES_TRIED: nat := 20

  /** The first unused code among the first twenty drawn. */
  ghost predicate FirstUnused(rows: map<string, Row>, draws: seq<string>, k: nat) {
    && k < |draws| && k < CODES_TRIED && draws[k] !in rows
    && forall j | 0 <= j < k :: draws[j] in rows
  }

  class PairingDesk {
    var rows: map<string, Row>
    var kiosks: map<Slot, Kiosk>

    constructor ()
      ensures Tables() == Db(map[], map[])
    {
      rows, kiosks := map[], map[];
    }

    ghost function Tables(): Db
      reads this
    {
      Db(rows, kiosks)
    }

    /** Opens a pairing row under the first unused code; gives up after twenty used ones. */
    method Initiate(draws: seq<string>, row: Row) returns (r: Result<string>)
      requires |draws| >= CODES_TRIED && NewRow(row)
      modifies this`rows
      ensures r.Ok? <==> exists k :: 0 <= k < CODES_TRIED && draws[k] !in old(rows)
      ensures r.Ok? ==>
                && (exists k | 0 <= k < CODES_TRIED :: FirstUnused(old(rows), draws, k) && r.value == draws[k])
                && rows == old(rows)[r.value := row]
      ensures r.Err? ==> rows == old(rows) && r.error == "failed to generate unique pairing code"
    {
      var attempts := 0;
      while attempts < CODES_TRIED && draws[attempts] in rows
        invariant 0 <= attempts <= CODES_TRIED
        invariant forall j | 0 <= j < attempts :: draws[j] in rows
      {
        attempts := attempts + 1;
      }
      if attempts == CODES_TRIED {
        return Err("failed to generate unique pairing code");
      }
      assert FirstUnused(rows, draws, attempts);
      rows := rows[draws[attempts] := row];
      return Ok(draws[attempts]);
    }

    method UniqueName(schema: string, base: string) returns (r: Option<string>)
      ensures r == FreeName(Names(kiosks, schema), Candidates(base), 0)
    {
      var names := Names(kiosks, schema);
      ghost var candidates := Candidates(base);
      var candidate, suffix := base, 2;
      while candidate in names
        invariant 2 <= suffix <= 100 && candidate == candidates[suffix - 2]
        invariant FreeName(names, candidates, 0) == FreeName(names, candidates, suffix - 2)
        decreases 100 - suffix
      {
        candidate := base + "-" + Decimal(suffix);
        suffix := suffix + 1;
        if suffix > 100 {
          return None;
        }
      }
      return Some(candidate);
    }

    method ConfirmPairing(input: Input, now: int, lowerCode: string, draws: Draws) returns (r: Result<Paired>)
      modifies this
      ensures (Tables(), r) == Confirm(old(Tables()), input, now, lowerCode, draws)
    {
      if input.code !in rows {
        return Err("pairing code not found");
      }
      var row := rows[input.code];
      if row.consumedBy.Some? {
        return Retry(Db(rows, kiosks), input, row);
      }
      if row.expiresAt < now {
        return Err("pairing code expired");
      }
      var slot, kiosk;
      if input.request.replaceKioskId.Some? {
        slot := Slot(input.schema, input.request.replaceKioskId.value);
        if slot !in kiosks {
          return Err("replacement target kiosk not found");
        }
        if !input.force && Mismatch(kiosks[slot], row) {
          return Err("replacement device differs from existing kiosk");
        }
        kiosk := Rekeyed(kiosks[slot], row, draws);
      } else {
        var name := UniqueName(input.schema, BaseName(input, row, lowerCode));
        if name.None? {
          return Err("could not generate unique kiosk name");
        }
        slot, kiosk := Slot(input.schema, draws.kioskId), Created(name.value, row, draws);
      }
      kiosks := kiosks[slot := kiosk];
      rows := rows[input.code := Consumed(row, input, now, slot.id, draws)];
      return Ok(Paired(slot.id, kiosk.name));
    }

    /** With no other operation between its two reads, a poll is the two halves on the same tables. */
    method ClaimPairing(code: string, secret: Option<string>, now: int, readable: bool) returns (answer: Answer)
      ensures Answered(code, answer) == ReadKiosk(Tables(), ReadRow(Tables(), code, secret, now, readable))
    {
      if code !in rows {
        return Expired;
      }
      var row := rows[code];
      if row.extras.pollingSecret.Some? && !Matches(secret, row.extras.pollingSecret.value) {
        return Failed;
      }
      if row.extras.acknowledged {
        return Acknowledged;
      }
      var remaining := Expiry(row) - now;
      if remaining <= 0 {
        return Expired;
      }
      if row.consumedBy.None? {
        return Pending(Seconds(remaining));
      }
      if row.extras.claim.Sealed? && !readable {
        return Failed;
      }
      var credentials := CredentialsOf(row);
      if credentials.None? {
        return Failed;
      }
      var slot := credentials.value.slot;
      if slot !in kiosks || !kiosks[slot].enabled {
        return Revoked;
      }
      return Claimed(credentials.value, kiosks[slot].name, Seconds(remaining), row.extras.demo);
    }

    method AcknowledgePairing(code: string, kioskId: string, schema: string, secret: Option<string>)
        returns (r: Result<()>)
      modifies this`rows
      ensures r.Ok? <==> Acknowledge(old(Tables()), code, kioskId, schema, secret).Ok?
      ensures r.Ok? ==> Tables() == Acknowledge(old(Tables()), code, kioskId, schema, secret).value
      ensures r.Err? ==> rows == old(rows) && r.error == Acknowledge(old(Tables()), code, kioskId, schema, secret).error
    {
      if code !in rows || rows[code].consumedBy != Some(kioskId) || SchemaOf(rows[code]) != schema {
        return Err("pairing session does not belong to device");
      }
      if !Authorised(rows[code], secret) {
        return Err("invalid pairing session secret");
      }
      rows := rows[code := Erased(rows[code])];
      return Ok(());
    }
  }
}
