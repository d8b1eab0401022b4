/** The in-process table of power sessions, proved against the operations of PowerSessions. */
module PowerOrder {
  import opened Common
  import opened PowerSessions
  import opened PowerSessionProofs

  lemma {:induction false} SelectAll(rows: seq<Row>, keep: Row -> bool)
    requires forall row | row in rows :: keep(row)
    ensures Select(rows, keep) == rows
  {
    if rows != [] {
      SelectAll(rows[1..], keep);
    }
  }

  lemma DeleteHead(row: Row, rows: seq<Row>, kiosk: string)
    ensures Delete([row] + rows, kiosk) == if row.kiosk == kiosk then rows else [row] + Delete(rows, kiosk)
  {
    var all, i := [row] + rows, Index(rows, kiosk);
    assert all[1..] == rows;
    if row.kiosk != kiosk {
      assert Index(all, kiosk) == 1 + i;
      if i < |rows| {
        assert all[..1 + i] == [row] + rows[..i] && all[2 + i..] == rows[i+1..];
      }
    }
  }

  /** Deleting a kiosk from a selection narrows the selection. */
  lemma {:induction false} DeleteNarrows(rows: seq<Row>, out: set<string>, kiosk: string)
    requires Distinct(rows)
    ensures Delete(Select(rows, KeepOutside(out)), kiosk) == Select(rows, KeepOutside(out + {kiosk}))
  {
    if rows != [] {
      var rest := rows[1..];
      DeleteNarrows(rest, out, kiosk);
      DeleteHead(rows[0], Select(rest, KeepOutside(out)), kiosk);
      if rows[0].kiosk == kiosk {
        SameSelection(rest, KeepOutside(out), KeepOutside(out + {kiosk}));
      }
    }
  }

  lemma EvictOne(rows: seq<Row>, sorted: seq<Row>, i: nat)
    requires Distinct(rows) && i < |sorted|
    ensures Delete(Select(rows, KeepOutside(Kiosks(sorted[..i]))), sorted[i].kiosk)
         == Select(rows, KeepOutside(Kiosks(sorted[..i+1])))
  {
    DeleteNarrows(rows, Kiosks(sorted[..i]), sorted[i].kiosk);
    assert sorted[..i+1] == sorted[..i] + [sorted[i]];
    assert Kiosks(sorted[..i+1]) == Kiosks(sorted[..i]) + {sorted[i].kiosk};
  }

  lemma EvictNone(rows: seq<Row>, sorted: seq<Row>)
    ensures Select(rows, KeepOutside(Kiosks(sorted[..0]))) == rows
  {
    SelectAll(rows, KeepOutside(Kiosks(sorted[..0])));
  }

  lemma {:induction false} SameSelection(rows: seq<Row>, keep: Row -> bool, keep': Row -> bool)
    requires forall row | row in rows :: keep(row) == keep'(row)
    ensures Select(rows, keep) == Select(rows, keep')
  {
    if rows != [] {
      SameSelection(rows[1..], keep, keep');
    }
  }

  class PowerStateOrder {
    var sessions: seq<Row>
    var nextSweep: int

    ghost function Held(): State
      reads this
    {
      State(sessions, nextSweep)
    }

    constructor ()
      ensures Held() == State([], 0)
    {
      sessions, nextSweep := [], 0;
    }

    /** First pass of pruning: drops lapsed records and lists the ownerless ones left. */
    method DropLapsed(now: int) returns (ownerless: seq<Row>)
      modifies this`sessions
      ensures sessions == Select(old(sessions), KeepUnexpired(now)) && ownerless == Ownerless(sessions)
    {
      ownerless := [];
      var kept := [];
      for i := 0 to |sessions|
        invariant sessions == old(sessions)
        invariant kept == Select(sessions[..i], KeepUnexpired(now))
        invariant ownerless == Ownerless(kept)
      {
        var row := sessions[i];
        assert sessions[..i+1] == sessions[..i] + [row];
        SelectLast(sessions[..i], KeepUnexpired(now), row);
        SelectLast(kept, IsOwnerless, row);
        if row.record.owner.Some? {
          kept := kept + [row];
        } else if now < row.record.expiresAt {
          ownerless := ownerless + [row];
          kept := kept + [row];
        }
      }
      assert sessions[..|sessions|] == sessions;
      sessions := kept;
    }

    /** Second pass: evicts the ownerless records closest to expiry until the rest fit. */
    method EvictOldest(ownerless: seq<Row>)
      requires Distinct(sessions) && ownerless == Ownerless(sessions) && |ownerless| > MAX_OWNERLESS
      modifies this`sessions
      ensures sessions == Select(old(sessions), KeepOutside(Doomed(old(sessions))))
    {
      ghost var all := sessions;
      DoomedAreFirst(all);
      var sorted := SortByExpiry(ownerless);
      EvictNone(all, sorted);
      for i := 0 to |ownerless| - MAX_OWNERLESS
        invariant sessions == Select(all, KeepOutside(Kiosks(sorted[..i])))
      {
        EvictOne(all, sorted, i);
        sessions := Delete(sessions, sorted[i].kiosk);
      }
    }

    method Prune(now: int, capacityMayIncrease: bool)
      requires Distinct(sessions)
      modifies this
      ensures Held() == PowerSessions.Prune(old(Held()), now, capacityMayIncrease)
    {
      if now < nextSweep && !capacityMayIncrease { return; }
      nextSweep := now + SWEEP_MS;
      var ownerless := DropLapsed(now);
      SelectDistinct(old(sessions), KeepUnexpired(now));
      if |ownerless| > MAX_OWNERLESS {
        EvictOldest(ownerless);
      } else {
        SelectAll(sessions, KeepOutside({}));
      }
    }

    method CurrentSession(kiosk: string, now: int) returns (current: Option<Record>)
      requires Distinct(sessions)
      modifies this
      ensures Held() == Expire(old(Held()), kiosk, now) && Distinct(sessions)
      ensures current == Current(old(Held()), kiosk, now) == Find(sessions, kiosk)
    {
      ExpireFind(Held(), kiosk, now, kiosk);
      current := Find(sessions, kiosk);
      if current.Some? && current.value.owner.None? && current.value.expiresAt <= now {
        sessions := Delete(sessions, kiosk);
        current := None;
      }
    }

    method ReplaceSession(kiosk: string, sample: Sample, owner: Option<Socket>, now: int)
      requires Distinct(sessions)
      modifies this
      ensures
        var previous, s := Current(old(Held()), kiosk, now), Expire(old(Held()), kiosk, now);
        Held() == PowerSessions.Prune(s.(rows := Set(s.rows, kiosk, Successor(previous, sample, owner, now))), now,
                                      owner.None? && (previous.None? || previous.value.owner.Some?))
    {
      var previous := CurrentSession(kiosk, now);
      var retired: seq<Retired> := [];
      if previous.Some? {
        retired := KeepRetired(previous.value.retired, sample.session, now);
        if previous.value.session != sample.session {
          retired := retired + [Retired(previous.value.session, now + HISTORY_MS)];
        }
      }
      ghost var all := retired;
      while |retired| > MAX_RETIRED
        invariant |retired| <= |all| && retired == all[|all| - |retired|..]
        invariant if |all| > MAX_RETIRED then |retired| >= MAX_RETIRED else |retired| == |all|
      {
        retired := retired[1..];
      }
      assert retired == LastRetired(all);
      var revision := sample.revision;
      if previous.Some? && previous.value.session == sample.session && previous.value.revision > revision {
        revision := previous.value.revision;
      }
      SetFind(sessions, kiosk, Record(sample.session, revision, owner, now + HISTORY_MS, retired), kiosk);
      sessions := Set(sessions, kiosk, Record(sample.session, revision, owner, now + HISTORY_MS, retired));
      Prune(now, owner.None? && (previous.None? || previous.value.owner.Some?));
    }

    method BindPowerSession(kiosk: string, socket: Socket, sample: Option<Sample>, now: int)
      requires Distinct(sessions)
      modifies this
      ensures Held() == Step(old(Held()), Bind(kiosk, socket, sample, now))
    {
      ghost var before := Held();
      ExpireFind(before, kiosk, now, kiosk);
      if sample.None? {
        var previous := CurrentSession(kiosk, now);
        if previous.Some? {
          SetFind(sessions, kiosk, Released(previous.value, now), kiosk);
          SetSame(sessions, kiosk);
          sessions := Set(sessions, kiosk, previous.value.(owner := None, expiresAt := now + HISTORY_MS));
        }
        Prune(now, previous.Some? && previous.value.owner.Some?);
      } else {
        SetSame(Expire(before, kiosk, now).rows, kiosk);
        ReplaceSession(kiosk, sample.value, Some(socket), now);
      }
    }

    /** The clock is read once for the record's expiry and again for pruning. */
    method UnbindPowerSession(kiosk: string, socket: Socket, released: int, now: int)
      requires Distinct(sessions)
      modifies this
      ensures Held() == Step(old(Held()), Unbind(kiosk, socket, released, now))
    {
      var current := Find(sessions, kiosk);
      if current.Some? && current.value.owner == Some(socket) {
        SetFind(sessions, kiosk, Released(current.value, released), kiosk);
        sessions := Set(sessions, kiosk, current.value.(owner := None, expiresAt := released + HISTORY_MS));
        Prune(now, true);
      }
    }

    method HeartbeatPowerSampleAllowed(kiosk: string, sample: Option<Sample>, now: int) returns (allowed: bool)
      requires Distinct(sessions)
      modifies this
      ensures Held() == Step(old(Held()), Heartbeat(kiosk, sample, now))
      ensures allowed == HeartbeatAllowed(old(Held()), kiosk, sample, now)
    {
      if sample.None? { return false; }
      ghost var before := Held();
      var current := CurrentSession(kiosk, now);
      if current.Some? && current.value.session == sample.value.session {
        return current.value.revision <= sample.value.revision;
      }
      if HeartbeatBarred(current, sample.value.session, now) { return false; }
      SetSame(sessions, kiosk);
      ReplaceSession(kiosk, Sample(sample.value.session, -1), None, now);
      return true;
    }

    method AdvancePowerSample(kiosk: string, sample: Sample, now: int)
      requires Distinct(sessions)
      modifies this
      ensures Held() == Step(old(Held()), Advance(kiosk, sample, now))
    {
      var current := CurrentSession(kiosk, now);
      if SampleAllowed(current, sample) {
        SetSame(sessions, kiosk);
        sessions := Set(sessions, kiosk,
                        current.value.(revision := sample.revision, expiresAt := now + HISTORY_MS));
      }
    }

    method PowerSampleAllowed(kiosk: string, sample: Option<Sample>, now: int) returns (allowed: bool)
      requires Distinct(sessions)
      modifies this
      ensures Held() == Step(old(Held()), Look(kiosk, now))
      ensures allowed == (sample.Some? && SampleAllowed(Current(old(Held()), kiosk, now), sample.value))
    {
      var current := CurrentSession(kiosk, now);
      return sample.Some? && SampleAllowed(current, sample.value);
    }
  }

  /** Writing back the record a kiosk already has changes nothing. */
  lemma SetSame(rows: seq<Row>, kiosk: string)
    ensures Find(rows, kiosk).Some? ==> Set(rows, kiosk, Find(rows, kiosk).value) == rows
  {
  }
}
