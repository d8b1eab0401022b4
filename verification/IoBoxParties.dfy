/** The two ends of ioBOX enrolment as they are written: the server's transactions and the device's firmware. */
module IoBoxParties {
  import opened Common
  import opened IoBoxEnrollment

  class PairingServer {
    const crypto: Crypto
    var serials: map<string, SerialRow>
    var claims: map<string, Claim>
    var boxes: map<string, Box>
    var activeTenants: set<string>

    ghost function Rows(): Db
      reads this
    {
      Db(serials, claims, boxes, activeTenants)
    }

    constructor (crypto: Crypto, serials: map<string, SerialRow>)
      ensures this.crypto == crypto && Rows() == Db(serials, map[], map[], {})
    {
      this.crypto := crypto;
      this.serials := serials;
      claims, boxes, activeTenants := map[], map[], {};
    }

    /** Returns the error the transaction throws, if any; a thrown error rolls everything back. */
    method Bind(serial: string, secret: Option<string>) returns (error: Option<string>)
      modifies this`claims
      ensures match BindProvisioning(crypto, old(Rows()), serial, secret)
              case Ok(db) => error == None && Rows() == db
              case Err(e) => error == Some(e) && Rows() == old(Rows())
    {
      if secret.None? || secret.value == "" { return None; }
      if serial !in serials { return Some("unknown serial"); }
      if serial in claims {
        if !MatchesSecret(crypto, secret, claims[serial].secretHash) { return Some("invalid provisioning secret"); }
      } else {
        if serials[serial].box.Some? { return Some("serial already paired; operator reset required"); }
        claims := claims[serial := IoBoxEnrollment.Claim(crypto.secretHash(secret.value), None, false)];
      }
      return None;
    }

    method ClaimBox(serial: string, secret: Option<string>, tenant: Option<string>, fr: Fresh)
      returns (r: Result<Envelope>)
      modifies this
      ensures match ClaimIoBox(crypto, old(Rows()), serial, secret, tenant, fr)
              case Ok(answer) => r == Ok(answer.1) && Rows() == answer.0
              case Err(e) => r == Err(e) && Rows() == old(Rows())
    {
      if serial !in serials { return Err("unknown serial"); }
      var savepoint := claims;
      var error := Bind(serial, secret);
      if error.Some? { return Err(error.value); }
      if serial in claims && !MatchesSecret(crypto, secret, claims[serial].secretHash) {
        claims := savepoint;
        return Err("invalid provisioning secret");
      }
      if serials[serial].box.Some? {
        r := Redelivery(crypto, Db(serials, claims, boxes, activeTenants), serial);
        if r.Err? { claims := savepoint; }
        return;
      }
      if !fr.modelKnown {
        claims := savepoint;
        return Err("serial model missing");
      }
      boxes := boxes[fr.id := Box(serial, crypto.keyHash(fr.key), true)];
      serials := serials[serial := SerialRow(Some(fr.id), tenant)];
      var envelope := Envelope(fr.id, fr.key);
      if serial in claims {
        claims := claims[serial := claims[serial].(envelope := Some(crypto.encrypt(envelope)))];
      }
      return Ok(envelope);
    }

    method Acknowledge(serial: string, id: string, tenant: Option<string>, secret: Option<string>)
      returns (error: Option<string>)
      modifies this`claims
      ensures match IoBoxEnrollment.Acknowledge(crypto, old(Rows()), serial, id, tenant, secret)
              case Ok(db) => error == None && Rows() == db
              case Err(e) => error == Some(e) && Rows() == old(Rows())
    {
      if || serial !in serials || serials[serial].box != Some(id) || serials[serial].tenant != tenant
         || serial !in claims || !MatchesSecret(crypto, secret, claims[serial].secretHash)
      {
        return Some("invalid pairing acknowledgement");
      }
      claims := claims[serial := claims[serial].(envelope := None, acknowledged := true)];
      return None;
    }
  }

  /** One thing the firmware did: changed its state, or sent a request. */
  datatype Move = Did(event: Event) | Sent(request: Request)

  ghost predicate IsMove(d: Device, m: Move, d': Device) {
    match m
    case Did(e) => Enabled(d, e) && d' == IoBoxEnrollment.Apply(d, e)
    case Sent(r) => MaySend(d, r) && d' == d
  }

  ghost predicate IsTrace(trace: seq<Device>, moves: seq<Move>) {
    |trace| == |moves| + 1 && forall i | 0 <= i < |moves| :: IsMove(trace[i], moves[i], trace[i+1])
  }

  class Firmware {
    var storedSecret: string
    var storedIdentity: Option<Identity>
    var secret: string
    var id: string
    var key: string
    var ackPending: bool
    ghost var trace: seq<Device>
    ghost var moves: seq<Move>
    ghost var faults: nat               // how often flash has failed to verify a write

    ghost function Held(): Device
      reads this
    {
      Device(storedSecret, storedIdentity, secret, id, key, ackPending)
    }

    /** Every step so far was one the protocol allows, and what RAM holds is in flash. */
    ghost predicate Valid()
      reads this
    {
      && IsTrace(trace, moves) && trace[|moves|] == Held()
      && (secret != "" ==> secret == storedSecret)
      && (key != "" ==> Holds(Held(), Envelope(id, key)))
      && (storedIdentity.Some? ==> storedIdentity.value.id != "" && storedIdentity.value.key != "")
    }

    constructor ()
      ensures Valid() && Held() == Device("", None, "", "", "", false)
    {
      storedSecret, storedIdentity, secret, id, key, ackPending := "", None, "", "", "", false;
      trace, moves, faults := [Device("", None, "", "", "", false)], [], 0;
    }

    ghost method Note(m: Move)
      requires IsTrace(trace, moves) && IsMove(trace[|moves|], m, Held())
      modifies this`trace, this`moves
      ensures IsTrace(trace, moves) && trace[|moves|] == Held()
      ensures moves == old(moves) + [m]
    {
      trace, moves := trace + [Held()], moves + [m];
    }

    /** Writes one flash value and reads it back; a reported failure may still have written it. */
    method SaveSecret(next: string) returns (saved: bool)
      requires Valid() && key == "" && secret == "" && next != ""
      modifies this
      ensures Valid() && old(moves) <= moves && key == "" && storedIdentity == old(storedIdentity)
      ensures if saved then secret == storedSecret == next else secret == ""
      ensures forall k | |old(moves)| <= k < |moves| :: moves[k].Did?
      ensures old(faults) <= faults && (saved <==> faults == old(faults))
    {
      saved := *;
      if !saved { faults := faults + 1; }
      var stuck: bool := *;
      if saved || stuck { storedSecret := next; }
      if saved { secret := next; }
      Note(Did(MadeSecret(next, saved, stuck)));
    }

    method SaveIdentity(newId: string, newKey: string, pending: bool) returns (saved: bool)
      requires Valid()
      requires if pending then key == "" && secret != "" else key != "" && ackPending && newId == id && newKey == key
      modifies this
      ensures Valid() && old(moves) <= moves
      ensures storedSecret == old(storedSecret) && secret == old(secret)
      ensures saved ==> storedIdentity == Some(Identity(newId, newKey, pending))
                        && id == newId && key == newKey && ackPending == pending
      ensures !saved ==> id == old(id) && key == old(key) && ackPending == old(ackPending)
      // It is saved unless the write fails to verify or there is nothing to save.
      ensures old(faults) <= faults && (saved <==> faults == old(faults) && newId != "" && newKey != "")
      ensures forall k | |old(moves)| <= k < |moves| :: moves[k].Did?
    {
      if newId == "" || newKey == "" { return false; }
      saved := *;
      if !saved { faults := faults + 1; }
      var stuck: bool := *;
      if saved || stuck { storedIdentity := Some(Identity(newId, newKey, pending)); }
      if saved { id, key, ackPending := newId, newKey, pending; }
      Note(Did(if pending then GotIdentity(Envelope(newId, newKey), saved, stuck) else GotAck(saved, stuck)));
    }

    /** Power-up: RAM is rebuilt from flash. */
    method Setup()
      requires Valid()
      modifies this
      ensures Valid() && old(moves) <= moves
      ensures storedSecret == old(storedSecret) == secret && storedIdentity == old(storedIdentity)
      ensures storedIdentity.None? ==> id == "" && key == "" && !ackPending
      ensures storedIdentity.Some? ==> storedIdentity.value == Identity(id, key, ackPending)
    {
      secret := storedSecret;
      id, key, ackPending := "", "", false;
      if storedIdentity.Some? {
        id, key, ackPending := storedIdentity.value.id, storedIdentity.value.key, storedIdentity.value.ackPending;
      }
      Note(Did(Rebooted));
    }

    /** `answered` says whether the acknowledgement request got its reply. */
    method AcknowledgeClaim(answered: bool)
      requires Valid()
      modifies this
      ensures Valid() && old(moves) <= moves
      ensures id == old(id) && key == old(key) && secret == old(secret)
      // It is sent as long as it is due, and stays due until it is answered.
      ensures old(ackPending) && old(key) != "" ==> Sent(AckRequest(old(secret), old(key))) in moves[|old(moves)|..]
      ensures old(ackPending) && !answered ==> ackPending
      ensures old(faults) <= faults
      ensures old(key) != "" && old(ackPending) && answered && faults == old(faults) ==>
                storedIdentity == Some(Identity(id, key, false)) && !ackPending
      ensures !answered || !old(ackPending) ==> Held() == old(Held())
      ensures forall k | |old(moves)| <= k < |moves| && moves[k].Sent? ::
                moves[k] == Sent(AckRequest(old(secret), old(key))) && old(ackPending)
      // Nothing is acknowledged unless the identity is in flash.
      ensures (exists r :: r in moves[|old(moves)|..] && r.Sent?) ==>
                old(storedIdentity).Some? && old(storedIdentity).value.key == old(key)
    {
      if !ackPending || key == "" { return; }
      Note(Sent(AckRequest(secret, key)));
      if answered {
        var saved := SaveIdentity(id, key, false);
      }
      assert moves[|old(moves)|..][0] == Sent(AckRequest(old(secret), old(key)));
    }

    /** One round of the enrolment loop. The network answers, or does not, as the arguments say. */
    method AnnounceOrClaim(drawn: string, announced: bool, claimed: Option<Envelope>, ackAnswered: bool)
      requires Valid() && drawn != ""
      modifies this
      ensures Valid() && old(moves) <= moves && old(faults) <= faults
      // The secret is drawn once and kept; an identity, once used, is kept too.
      ensures old(secret) != "" ==> secret == old(secret)
      ensures old(key) != "" ==> key == old(key) && id == old(id)
      // Without an identity and a fault it announces itself and, exactly if announced, claims, by the secret it keeps.
      ensures old(key) == "" && (old(secret) != "" || faults == old(faults)) ==>
                && secret == (if old(secret) != "" then old(secret) else drawn)
                && Sent(AnnounceRequest(secret)) in moves[|old(moves)|..]
                && (announced ==> Sent(ClaimRequest(secret)) in moves[|old(moves)|..])
      ensures forall k | |old(moves)| <= k < |moves| && moves[k].Sent? && moves[k].request.ClaimRequest? :: announced
      // It takes the answered identity, which it acknowledges until that is answered, and no other.
      ensures old(key) == "" && !(announced && claimed.Some?) ==> key == ""
      ensures old(key) == "" && announced && claimed.Some? && claimed.value.id != "" && claimed.value.key != ""
              && faults == old(faults) ==>
                storedIdentity == Some(Identity(id, key, !ackAnswered)) && Envelope(id, key) == claimed.value
      ensures old(key) != "" && old(ackPending) && ackAnswered && faults == old(faults) ==> !ackPending
    {
      if key != "" {
        AcknowledgeClaim(ackAnswered);
        return;
      }
      if secret == "" {
        var saved := SaveSecret(drawn);
        if !saved { return; }
      }
      Claim(announced, claimed, ackAnswered);
    }

    /** The requests of a round, once there is a secret. */
    method Claim(announced: bool, claimed: Option<Envelope>, ackAnswered: bool)
      requires Valid() && key == "" && secret != ""
      modifies this
      ensures Valid() && old(moves) <= moves && old(faults) <= faults && secret == old(secret)
      ensures Sent(AnnounceRequest(secret)) in moves[|old(moves)|..]
      ensures announced ==> Sent(ClaimRequest(secret)) in moves[|old(moves)|..]
      ensures forall k | |old(moves)| <= k < |moves| && moves[k].Sent? && moves[k].request.ClaimRequest? :: announced
      ensures !(announced && claimed.Some?) ==> key == ""
      ensures announced && claimed.Some? && claimed.value.id != "" && claimed.value.key != ""
              && faults == old(faults) ==>
                storedIdentity == Some(Identity(id, key, !ackAnswered)) && Envelope(id, key) == claimed.value
    {
      Note(Sent(AnnounceRequest(secret)));
      assert moves[|old(moves)|..] == [Sent(AnnounceRequest(secret))];
      if !announced { return; }
      Note(Sent(ClaimRequest(secret)));
      ghost var sent := moves;
      assert sent[|old(moves)|..] == [Sent(AnnounceRequest(secret)), Sent(ClaimRequest(secret))];
      if claimed.None? { return; }
      var saved := SaveIdentity(claimed.value.id, claimed.value.key, true);
      if saved {
        AcknowledgeClaim(ackAnswered);
      }
      assert sent[|old(moves)|..] <= moves[|old(moves)|..];
      assert sent[|old(moves)|..][0] in moves[|old(moves)|..] && sent[|old(moves)|..][1] in moves[|old(moves)|..];
    }
  }
}
