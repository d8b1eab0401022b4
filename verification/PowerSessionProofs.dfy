/** What every power-session operation keeps, and how long a replaced session stays out. */
module PowerSessionProofs {
  import opened Common
  import opened PowerSessions

  // ---------------------------------------------------------------- tables

  ghost function Kiosks(rows: seq<Row>): set<string> {
    set row | row in rows :: row.kiosk
  }

  ghost function OwnerlessKiosks(rows: seq<Row>): set<string> {
    set row | row in rows && row.record.owner.None? :: row.kiosk
  }

  lemma FindMember(rows: seq<Row>, row: Row)
    requires Distinct(rows) && row in rows
    ensures Find(rows, row.kiosk) == Some(row.record)
  {
    var i :| 0 <= i < |rows| && rows[i] == row;
    var j := Index(rows, row.kiosk);
    assert j <= i;
  }

  lemma Absent(rows: seq<Row>, kiosk: string)
    ensures Find(rows, kiosk).None? <==> kiosk !in Kiosks(rows)
  {
    var i := Index(rows, kiosk);
    if i < |rows| {
      assert rows[i] in rows;
    }
  }

  lemma SetFind(rows: seq<Row>, kiosk: string, record: Record, other: string)
    requires Distinct(rows)
    ensures Distinct(Set(rows, kiosk, record))
    ensures Find(Set(rows, kiosk, record), other) == if other == kiosk then Some(record) else Find(rows, other)
  {
    var after, i := Set(rows, kiosk, record), Index(rows, kiosk);
    if other == kiosk {
      assert after[i] == Row(kiosk, record);
      FindMember(after, Row(kiosk, record));
    } else {
      forall row: Row | row.kiosk == other ensures row in rows <==> row in after {
        if row in rows {
          var j :| 0 <= j < |rows| && rows[j] == row;
          assert after[j] == row;
        }
      }
      SameFind(rows, after, other);
    }
  }

  /** Tables that agree on a kiosk's row, if any, agree on the lookup. */
  lemma SameFind(rows: seq<Row>, rows': seq<Row>, kiosk: string)
    requires Distinct(rows) && Distinct(rows')
    requires forall row: Row :: row.kiosk == kiosk ==> (row in rows <==> row in rows')
    ensures Find(rows, kiosk) == Find(rows', kiosk)
  {
    var i, j := Index(rows, kiosk), Index(rows', kiosk);
    if i < |rows| {
      assert rows[i] in rows';
      FindMember(rows', rows[i]);
    } else {
      Absent(rows, kiosk);
      Absent(rows', kiosk);
    }
  }

  lemma DeleteRows(rows: seq<Row>, kiosk: string)
    requires Distinct(rows)
    ensures Distinct(Delete(rows, kiosk))
    ensures forall row :: row in Delete(rows, kiosk) <==> row in rows && row.kiosk != kiosk
  {
    var after, i := Delete(rows, kiosk), Index(rows, kiosk);
    if i < |rows| {
      assert rows == rows[..i] + [rows[i]] + rows[i+1..];
    }
  }

  lemma DeleteFind(rows: seq<Row>, kiosk: string, other: string)
    requires Distinct(rows)
    ensures Find(Delete(rows, kiosk), other) == if other == kiosk then None else Find(rows, other)
  {
    DeleteRows(rows, kiosk);
    var after := Delete(rows, kiosk);
    if other != kiosk {
      SameFind(rows, after, other);
    } else {
      assert Index(after, kiosk) < |after| ==> after[Index(after, kiosk)] in after;
    }
  }

  lemma {:induction false} SelectDistinct(rows: seq<Row>, keep: Row -> bool)
    requires Distinct(rows)
    ensures Distinct(Select(rows, keep))
  {
    if rows != [] {
      SelectDistinct(rows[1..], keep);
      var rest := Select(rows[1..], keep);
      forall j | 0 <= j < |rest| ensures rest[j].kiosk != rows[0].kiosk {
        assert rest[j] in rows[1..];
      }
    }
  }

  lemma SelectFind(rows: seq<Row>, keep: Row -> bool, kiosk: string)
    requires Distinct(rows)
    ensures Find(Select(rows, keep), kiosk)
         == (var r := Find(rows, kiosk); if r.Some? && keep(Row(kiosk, r.value)) then r else None)
  {
    SelectDistinct(rows, keep);
    var kept := Select(rows, keep);
    var i, j := Index(rows, kiosk), Index(kept, kiosk);
    if j < |kept| {
      assert kept[j] in rows;
      FindMember(rows, kept[j]);
    } else {
      Absent(kept, kiosk);
    }
  }

  lemma {:induction false} DistinctCount(rows: seq<Row>)
    requires Distinct(rows)
    ensures |Kiosks(rows)| == |rows|
  {
    if rows != [] {
      DistinctCount(rows[1..]);
      assert Kiosks(rows) == {rows[0].kiosk} + Kiosks(rows[1..]);
    }
  }

  lemma AppendDistinct(rows: seq<Row>, row: Row)
    requires Distinct(rows) && row.kiosk !in Kiosks(rows)
    ensures Distinct(rows + [row]) && Kiosks(rows + [row]) == Kiosks(rows) + {row.kiosk}
  {
    assert forall i | 0 <= i < |rows| :: rows[i] in rows;
  }

  lemma {:induction false} InsertDistinct(sorted: seq<Row>, row: Row)
    requires Distinct(sorted) && row.kiosk !in Kiosks(sorted)
    ensures Distinct(Insert(sorted, row)) && Kiosks(Insert(sorted, row)) == Kiosks(sorted) + {row.kiosk}
  {
    if sorted == [] || sorted[|sorted|-1].record.expiresAt <= row.record.expiresAt {
      AppendDistinct(sorted, row);
    } else {
      var front, last := sorted[..|sorted|-1], sorted[|sorted|-1];
      assert sorted == front + [last];
      assert last.kiosk !in Kiosks(front) && last.kiosk in Kiosks(sorted);
      AppendDistinct(front, last);
      InsertDistinct(front, row);
      AppendDistinct(Insert(front, row), last);
    }
  }

  lemma {:induction false} SortDistinct(rows: seq<Row>)
    requires Distinct(rows)
    ensures Distinct(SortByExpiry(rows)) && Kiosks(SortByExpiry(rows)) == Kiosks(rows)
  {
    if rows != [] {
      var front, last := rows[..|rows|-1], rows[|rows|-1];
      assert rows == front + [last];
      SortDistinct(front);
      InsertDistinct(SortByExpiry(front), last);
    }
  }

  // ---------------------------------------------------------------- pruning

  lemma OwnerlessCount(rows: seq<Row>)
    requires Distinct(rows)
    ensures Kiosks(Ownerless(rows)) == OwnerlessKiosks(rows)
    ensures |Ownerless(rows)| == |OwnerlessKiosks(rows)|
  {
    SelectDistinct(rows, IsOwnerless);
    DistinctCount(Ownerless(rows));
    forall kiosk ensures kiosk in Kiosks(Ownerless(rows)) <==> kiosk in OwnerlessKiosks(rows) {
      if kiosk in OwnerlessKiosks(rows) {
        var row :| row in rows && row.record.owner.None? && row.kiosk == kiosk;
        assert row in Ownerless(rows);
      }
    }
    assert Kiosks(Ownerless(rows)) == OwnerlessKiosks(rows);
  }

  lemma DoomedAreFirst(rows: seq<Row>)
    requires |Ownerless(rows)| > MAX_OWNERLESS
    ensures |SortByExpiry(Ownerless(rows))| == |Ownerless(rows)|
    ensures Doomed(rows) == Kiosks(SortByExpiry(Ownerless(rows))[..|Ownerless(rows)| - MAX_OWNERLESS])
  {
    SortSameLength(Ownerless(rows));
  }

  lemma DoomedCount(rows: seq<Row>)
    requires Distinct(rows)
    ensures Doomed(rows) <= OwnerlessKiosks(rows)
    ensures |OwnerlessKiosks(rows) - Doomed(rows)| <= MAX_OWNERLESS
  {
    OwnerlessCount(rows);
    if |Ownerless(rows)| > MAX_OWNERLESS {
      DoomedExcess(rows);
      DifferenceSize(OwnerlessKiosks(rows), Doomed(rows));
    }
  }

  lemma DoomedExcess(rows: seq<Row>)
    requires Distinct(rows) && |Ownerless(rows)| > MAX_OWNERLESS
    ensures Doomed(rows) <= Kiosks(Ownerless(rows)) && |Doomed(rows)| == |Ownerless(rows)| - MAX_OWNERLESS
  {
    SelectDistinct(rows, IsOwnerless);
    DoomedAreFirst(rows);
    PrefixCount(Ownerless(rows), |Ownerless(rows)| - MAX_OWNERLESS);
  }

  lemma DifferenceSize(large: set<string>, small: set<string>)
    requires small <= large
    ensures |large - small| == |large| - |small|
  {
    assert large == small + (large - small);
  }

  /** As many different kiosks come first by expiry as are asked for. */
  lemma PrefixCount(rows: seq<Row>, n: nat)
    requires Distinct(rows) && n <= |rows| == |SortByExpiry(rows)|
    ensures Kiosks(SortByExpiry(rows)[..n]) <= Kiosks(rows) && |Kiosks(SortByExpiry(rows)[..n])| == n
  {
    SortDistinct(rows);
    DistinctCount(SortByExpiry(rows)[..n]);
  }

  /** Pruning drops this kiosk's record for capacity, not for age. */
  ghost predicate Evicts(s: State, now: int, mayGrow: bool, kiosk: string) {
    (s.nextSweep <= now || mayGrow) && kiosk in Doomed(Select(s.rows, KeepUnexpired(now)))
  }

  lemma PruneFind(s: State, now: int, mayGrow: bool, kiosk: string)
    requires Distinct(s.rows)
    ensures Distinct(Prune(s, now, mayGrow).rows)
    ensures
      var before, after := Find(s.rows, kiosk), Find(Prune(s, now, mayGrow).rows, kiosk);
      || after == before
      || (after.None? && before.Some? && before.value.owner.None?
          && (before.value.expiresAt <= now || Evicts(s, now, mayGrow, kiosk)))
  {
    if s.nextSweep <= now || mayGrow {
      var live := Select(s.rows, KeepUnexpired(now));
      SelectDistinct(s.rows, KeepUnexpired(now));
      SelectFind(s.rows, KeepUnexpired(now), kiosk);
      var doomed := Doomed(live);
      DoomedCount(live);
      SelectDistinct(live, KeepOutside(doomed));
      SelectFind(live, KeepOutside(doomed), kiosk);
      if kiosk in doomed {
        var row :| row in live && row.record.owner.None? && row.kiosk == kiosk;
        FindMember(live, row);
      }
    }
  }

  lemma PruneCount(s: State, now: int, mayGrow: bool)
    requires Distinct(s.rows)
    requires mayGrow || |OwnerlessKiosks(s.rows)| <= MAX_OWNERLESS
    ensures |OwnerlessKiosks(Prune(s, now, mayGrow).rows)| <= MAX_OWNERLESS
  {
    if s.nextSweep <= now || mayGrow {
      var live := Select(s.rows, KeepUnexpired(now));
      SelectDistinct(s.rows, KeepUnexpired(now));
      DoomedCount(live);
      var kept := Select(live, KeepOutside(Doomed(live)));
      SubsetSize(OwnerlessKiosks(kept), OwnerlessKiosks(live) - Doomed(live));
    }
  }

  // ---------------------------------------------------------------- records

  /** At most eight retired sessions, oldest expiry first, none current, none outliving the record. */
  ghost predicate RecordInv(r: Record, latest: int) {
    && |r.retired| <= MAX_RETIRED
    && r.expiresAt <= latest + HISTORY_MS
    && (forall i | 0 <= i < |r.retired| :: r.retired[i].session != r.session && r.retired[i].expires <= r.expiresAt)
    && (forall i, j | 0 <= i < j < |r.retired| ::
          r.retired[i].session != r.retired[j].session && r.retired[i].expires <= r.retired[j].expires)
  }

  ghost predicate Inv(s: State, latest: int) {
    && Distinct(s.rows)
    && |OwnerlessKiosks(s.rows)| <= MAX_OWNERLESS
    && forall kiosk :: Find(s.rows, kiosk).Some? ==> RecordInv(Find(s.rows, kiosk).value, latest)
  }

  /** Filtering keeps order: where each survivor comes from. */
  lemma {:induction false} KeepRetiredAt(retired: seq<Retired>, session: string, now: int, i: nat) returns (j: nat)
    requires i < |KeepRetired(retired, session, now)|
    ensures i <= j < |retired| && retired[j] == KeepRetired(retired, session, now)[i]
    ensures retired[j].session != session && now < retired[j].expires
    ensures |KeepRetired(retired, session, now)| - i <= |retired| - j
  {
    var rest := retired[1..];
    if retired[0].session != session && now < retired[0].expires {
      if i == 0 {
        j := 0;
        KeepRetiredShrinks(rest, session, now);
      } else {
        j := KeepRetiredAt(rest, session, now, i - 1);
        j := j + 1;
      }
    } else {
      j := KeepRetiredAt(rest, session, now, i);
      j := j + 1;
    }
  }

  lemma {:induction false} KeepRetiredShrinks(retired: seq<Retired>, session: string, now: int)
    ensures |KeepRetired(retired, session, now)| <= |retired|
  {
    if retired != [] {
      KeepRetiredShrinks(retired[1..], session, now);
    }
  }

  lemma {:induction false} KeepRetiredOrdered(r: Record, session: string, now: int, i: nat, j: nat)
    requires i < j < |KeepRetired(r.retired, session, now)|
    requires forall i, j | 0 <= i < j < |r.retired| ::
          r.retired[i].session != r.retired[j].session && r.retired[i].expires <= r.retired[j].expires
    ensures var k := KeepRetired(r.retired, session, now);
            k[i].session != k[j].session && k[i].expires <= k[j].expires
    decreases |r.retired|
  {
    var rest := r.(retired := r.retired[1..]);
    var kept := KeepRetired(rest.retired, session, now);
    if r.retired[0].session != session && now < r.retired[0].expires {
      if i == 0 {
        var m := KeepRetiredAt(rest.retired, session, now, j - 1);
        assert rest.retired[m] == r.retired[m+1];
      } else {
        KeepRetiredOrdered(rest, session, now, i - 1, j - 1);
      }
    } else {
      KeepRetiredOrdered(rest, session, now, i, j);
    }
  }

  lemma SuccessorInv(previous: Option<Record>, sample: Sample, owner: Option<Socket>, latest: int, now: int)
    requires latest <= now && (previous.Some? ==> RecordInv(previous.value, latest))
    ensures RecordInv(Successor(previous, sample, owner, now), now)
  {
    if previous.Some? {
      var r := Successor(previous, sample, owner, now);
      var kept := KeepRetired(previous.value.retired, sample.session, now);
      KeepRetiredShrinks(previous.value.retired, sample.session, now);
      forall i | 0 <= i < |kept|
        ensures kept[i].session != sample.session && kept[i].expires <= now + HISTORY_MS
        ensures kept[i].session != previous.value.session
      {
        var j := KeepRetiredAt(previous.value.retired, sample.session, now, i);
      }
      forall i, j | 0 <= i < j < |kept|
        ensures kept[i].session != kept[j].session && kept[i].expires <= kept[j].expires
      {
        KeepRetiredOrdered(previous.value, sample.session, now, i, j);
      }
    }
  }

  // ---------------------------------------------------------------- what every operation keeps

  /** The clock readings of an operation, none before the latest one so far. */
  ghost predicate InTime(op: Op, latest: int) {
    if op.Unbind? then latest <= op.released <= op.now else latest <= op.now
  }

  lemma ExpireFind(s: State, kiosk: string, now: int, other: string)
    requires Distinct(s.rows)
    ensures Distinct(Expire(s, kiosk, now).rows)
    ensures Find(Expire(s, kiosk, now).rows, other)
         == if other == kiosk then Current(s, kiosk, now) else Find(s.rows, other)
    ensures OwnerlessKiosks(Expire(s, kiosk, now).rows) <= OwnerlessKiosks(s.rows)
  {
    DeleteRows(s.rows, kiosk);
    DeleteFind(s.rows, kiosk, other);
  }

  lemma ExpireInv(s: State, kiosk: string, latest: int, now: int)
    requires Inv(s, latest) && latest <= now
    ensures Inv(Expire(s, kiosk, now), now)
  {
    ExpireFind(s, kiosk, now, kiosk);
    SubsetSize(OwnerlessKiosks(Expire(s, kiosk, now).rows), OwnerlessKiosks(s.rows));
    forall k | Find(Expire(s, kiosk, now).rows, k).Some?
      ensures RecordInv(Find(Expire(s, kiosk, now).rows, k).value, now)
    {
      ExpireFind(s, kiosk, now, k);
    }
  }

  lemma SetOwnerless(rows: seq<Row>, kiosk: string, record: Record)
    requires Distinct(rows)
    ensures OwnerlessKiosks(Set(rows, kiosk, record))
         <= OwnerlessKiosks(rows) + if record.owner.None? then {kiosk} else {}
  {
    var after := Set(rows, kiosk, record);
    forall row | row in after ensures row in rows || row == Row(kiosk, record) {
      var i :| 0 <= i < |after| && after[i] == row;
    }
  }

  lemma OwnerlessMember(s: State, kiosk: string)
    requires Find(s.rows, kiosk).Some? && Find(s.rows, kiosk).value.owner.None?
    ensures kiosk in OwnerlessKiosks(s.rows)
  {
    assert s.rows[Index(s.rows, kiosk)] in s.rows;
  }

  lemma LaterInv(s: State, latest: int, now: int)
    requires Inv(s, latest) && latest <= now
    ensures Inv(s, now)
  {
  }

  lemma IntendedInv(s: State, op: Op, latest: int)
    requires Inv(s, latest) && InTime(op, latest) && Intended(s, op).Some?
    ensures RecordInv(Intended(s, op).value, op.now)
  {
    var current := Current(s, op.kiosk, op.now);
    match op
    case Bind(_, socket, Some(sample), now) => SuccessorInv(current, sample, Some(socket), latest, now);
    case Heartbeat(_, Some(sample), now) => SuccessorInv(current, Sample(sample.session, -1), None, latest, now);
    case _ =>
  }

  lemma WrittenFind(s: State, op: Op, other: string)
    requires Distinct(s.rows)
    ensures Distinct(Written(s, op).rows)
    ensures Find(Written(s, op).rows, other) == if other == op.kiosk then Intended(s, op) else Find(s.rows, other)
  {
    ExpireFind(s, op.kiosk, op.now, other);
    var s1 := if op.Unbind? || op == Heartbeat(op.kiosk, None, op.now) then s else Expire(s, op.kiosk, op.now);
    var next := Intended(s, op);
    if next.Some? {
      SetFind(s1.rows, op.kiosk, next.value, other);
    }
  }

  lemma WrittenOwnerless(s: State, op: Op)
    requires Distinct(s.rows) && |OwnerlessKiosks(s.rows)| <= MAX_OWNERLESS
    ensures Pruning(s, op) == Some(true) || |OwnerlessKiosks(Written(s, op).rows)| <= MAX_OWNERLESS
  {
    var s1 := if op.Unbind? || op == Heartbeat(op.kiosk, None, op.now) then s else Expire(s, op.kiosk, op.now);
    var next := Intended(s, op);
    ExpireFind(s, op.kiosk, op.now, op.kiosk);
    SubsetSize(OwnerlessKiosks(s1.rows), OwnerlessKiosks(s.rows));
    if Pruning(s, op) != Some(true) && next.Some? && next != Find(s1.rows, op.kiosk) {
      SetOwnerless(s1.rows, op.kiosk, next.value);
      if next.value.owner.None? {
        OwnerlessMember(s1, op.kiosk);
      }
      SubsetSize(OwnerlessKiosks(Written(s, op).rows), OwnerlessKiosks(s1.rows));
    }
  }

  lemma WrittenRecords(s: State, op: Op, latest: int)
    requires Inv(s, latest) && InTime(op, latest)
    ensures forall k :: Find(Written(s, op).rows, k).Some? ==> RecordInv(Find(Written(s, op).rows, k).value, op.now)
  {
    LaterInv(s, latest, op.now);
    forall k | Find(Written(s, op).rows, k).Some? ensures RecordInv(Find(Written(s, op).rows, k).value, op.now) {
      WrittenFind(s, op, k);
      if k == op.kiosk {
        IntendedInv(s, op, latest);
      }
    }
  }

  /** After every operation: bounded ownerless records, and sound bounded retired lists everywhere. */
  lemma StepInv(s: State, op: Op, latest: int)
    requires Inv(s, latest) && InTime(op, latest)
    ensures Inv(Step(s, op), op.now)
  {
    WrittenFind(s, op, op.kiosk);
    WrittenOwnerless(s, op);
    WrittenRecords(s, op, latest);
    match Pruning(s, op)
    case None =>
    case Some(mayGrow) =>
      var before, after := Written(s, op), Step(s, op);
      PruneCount(before, op.now, mayGrow);
      PruneFind(before, op.now, mayGrow, "");
      forall k | Find(after.rows, k).Some? ensures RecordInv(Find(after.rows, k).value, op.now) {
        PruneFind(before, op.now, mayGrow, k);
      }
  }

  /** Any record after a step is the intended or the untouched one; a missing one was ownerless. */
  lemma StepFind(s: State, op: Op, kiosk: string)
    requires Distinct(s.rows)
    ensures
      var intended, after := if kiosk == op.kiosk then Intended(s, op) else Find(s.rows, kiosk),
                             Find(Step(s, op).rows, kiosk);
      || after == intended
      || (after.None? && intended.Some? && intended.value.owner.None?
          && (intended.value.expiresAt <= op.now || StepEvicts(s, op, kiosk)))
  {
    WrittenFind(s, op, kiosk);
    if Pruning(s, op).Some? {
      PruneFind(Written(s, op), op.now, Pruning(s, op).value, kiosk);
    }
  }

  ghost predicate StepEvicts(s: State, op: Op, kiosk: string) {
    Pruning(s, op).Some? && Evicts(Written(s, op), op.now, Pruning(s, op).value, kiosk)
  }

  /**
    Sockets own: nothing but a bind of the kiosk, or its own socket's unbind, takes a record's owner or session
    away.
  */
  lemma OwnedRecordsStay(s: State, op: Op, kiosk: string)
    requires Distinct(s.rows)
    requires Find(s.rows, kiosk).Some? && Find(s.rows, kiosk).value.owner.Some?
    requires op.kiosk != kiosk || op.Heartbeat? || op.Advance? || op.Look?
             || (op.Unbind? && Find(s.rows, kiosk).value.owner != Some(op.socket))
    ensures
      var before, after := Find(s.rows, kiosk).value, Find(Step(s, op).rows, kiosk);
      after.Some? && after.value.owner == before.owner && after.value.session == before.session
      && before.revision <= after.value.revision
  {
    StepFind(s, op, kiosk);
  }

  /** A bind by whatever socket takes an owned record over; a session it replaces is retired for thirty minutes. */
  lemma BindTakesOver(s: State, latest: int, kiosk: string, socket: Socket, sample: Sample, now: int)
    requires Inv(s, latest) && latest <= now && Find(s.rows, kiosk).Some? && Find(s.rows, kiosk).value.owner.Some?
    ensures
      var before, after := Find(s.rows, kiosk).value, Find(Step(s, Bind(kiosk, socket, Some(sample), now)).rows, kiosk);
      && after.Some? && after.value.owner == Some(socket) && after.value.session == sample.session
      && (before.session != sample.session ==>
            && 0 < |after.value.retired|
            && after.value.retired[|after.value.retired|-1] == Retired(before.session, now + HISTORY_MS)
            && after.value.revision == sample.revision)
      && (before.session == sample.session ==>
            before.revision <= after.value.revision && sample.revision <= after.value.revision)
  {
    StepFind(s, Bind(kiosk, socket, Some(sample), now), kiosk);
  }

  /**
    A bind without a sample, again by whatever socket, gives the record up with its session and history, for
    thirty minutes.
  */
  lemma BareBindReleases(s: State, kiosk: string, socket: Socket, now: int)
    requires Distinct(s.rows) && Find(s.rows, kiosk).Some? && Find(s.rows, kiosk).value.owner.Some?
    ensures
      var op := Bind(kiosk, socket, None, now);
      var before, after := Find(s.rows, kiosk).value, Find(Step(s, op).rows, kiosk);
      if after.None? then StepEvicts(s, op, kiosk)
      else after.value == before.(owner := None, expiresAt := now + HISTORY_MS)
  {
    StepFind(s, Bind(kiosk, socket, None, now), kiosk);
  }

  /** A session's revision never falls while it stays current. */
  lemma RevisionNeverFalls(s: State, op: Op, kiosk: string)
    requires Distinct(s.rows)
    requires Find(s.rows, kiosk).Some? && (kiosk == op.kiosk && !op.Unbind? ==> Current(s, kiosk, op.now).Some?)
    requires Find(Step(s, op).rows, kiosk).Some?
    requires Find(Step(s, op).rows, kiosk).value.session == Find(s.rows, kiosk).value.session
    ensures Find(s.rows, kiosk).value.revision <= Find(Step(s, op).rows, kiosk).value.revision
  {
    StepFind(s, op, kiosk);
  }

  // ---------------------------------------------------------------- a new record survives its own prune

  lemma {:induction false} SortKeepsNewest(rows: seq<Row>, newest: Row)
    requires forall row | row in rows :: row.record.expiresAt <= newest.record.expiresAt
    ensures SortByExpiry(rows + [newest]) == SortByExpiry(rows) + [newest]
  {
    var sorted := SortByExpiry(rows);
    SortSameLength(rows);
    assert (rows + [newest])[..|rows|] == rows;
    if sorted != [] {
      assert sorted[|sorted|-1] in multiset(sorted);
    }
  }

  lemma {:induction false} SelectLast(rows: seq<Row>, keep: Row -> bool, last: Row)
    ensures Select(rows + [last], keep) == Select(rows, keep) + if keep(last) then [last] else []
  {
    if rows != [] {
      SelectLast(rows[1..], keep, last);
      assert (rows + [last])[1..] == rows[1..] + [last];
    }
  }

  lemma NewestNotDoomed(rows: seq<Row>, newest: Row)
    requires Distinct(rows + [newest]) && newest.record.owner.None?
    requires forall row | row in rows :: row.record.expiresAt <= newest.record.expiresAt
    ensures newest.kiosk !in Doomed(rows + [newest])
  {
    var ownerless := Ownerless(rows);
    SelectLast(rows, IsOwnerless, newest);
    SortKeepsNewest(ownerless, newest);
    SortSameLength(ownerless);
    SelectDistinct(rows + [newest], IsOwnerless);
    SortDistinct(ownerless + [newest]);
    var sorted := SortByExpiry(ownerless + [newest]);
    if |ownerless| + 1 > MAX_OWNERLESS {
      forall row | row in sorted[..|ownerless| + 1 - MAX_OWNERLESS] ensures row.kiosk != newest.kiosk {
        var i :| 0 <= i < |ownerless| + 1 - MAX_OWNERLESS && sorted[i] == row;
        assert sorted[|ownerless|] == newest;
      }
    }
  }

  lemma RowsExpireBy(s: State, latest: int, row: Row)
    requires Inv(s, latest) && row in s.rows
    ensures row.record.expiresAt <= latest + HISTORY_MS
  {
    FindMember(s.rows, row);
  }

  lemma NewRecordKept(s: State, kiosk: string, record: Record, now: int)
    requires Inv(s, now) && Find(s.rows, kiosk).None?
    requires record.owner.None? && record.expiresAt == now + HISTORY_MS
    ensures Find(Prune(s.(rows := Set(s.rows, kiosk, record)), now, true).rows, kiosk) == Some(record)
  {
    var newest := Row(kiosk, record);
    var rows := s.rows + [newest];
    SetFind(s.rows, kiosk, record, kiosk);
    SelectLast(s.rows, KeepUnexpired(now), newest);
    var live := Select(s.rows, KeepUnexpired(now));
    SelectDistinct(rows, KeepUnexpired(now));
    forall row | row in live ensures row.record.expiresAt <= record.expiresAt {
      RowsExpireBy(s, now, row);
    }
    NewestNotDoomed(live, newest);
    SelectFind(rows, KeepUnexpired(now), kiosk);
    SelectFind(live + [newest], KeepOutside(Doomed(live + [newest])), kiosk);
  }

  lemma FewNotDoomed(rows: seq<Row>)
    requires Distinct(rows) && |OwnerlessKiosks(rows)| <= MAX_OWNERLESS
    ensures Doomed(rows) == {}
  {
    OwnerlessCount(rows);
  }

  /** A heartbeat that is allowed leaves its session current, even at full capacity. */
  lemma AllowedHeartbeatIsRecorded(s: State, kiosk: string, sample: Sample, latest: int, now: int)
    requires Inv(s, latest) && latest <= now && HeartbeatAllowed(s, kiosk, Some(sample), now)
    ensures
      var before, after := Find(s.rows, kiosk), Find(Step(s, Heartbeat(kiosk, Some(sample), now)).rows, kiosk);
      && after.Some? && after.value.session == sample.session
      && (if Alive(s, kiosk, now) && before.value.session == sample.session then after == before
          else after.value.revision == -1 && after.value.owner.None? && after.value.expiresAt == now + HISTORY_MS)
  {
    var op := Heartbeat(kiosk, Some(sample), now);
    StepFind(s, op, kiosk);
    var current, s1 := Current(s, kiosk, now), Expire(s, kiosk, now);
    ExpireFind(s, kiosk, now, kiosk);
    if Pruning(s, op) == Some(true) {
      ExpireInv(s, kiosk, latest, now);
      NewRecordKept(s1, kiosk, Intended(s, op).value, now);
    } else if Pruning(s, op) == Some(false) {
      WrittenFind(s, op, kiosk);
      WrittenOwnerless(s, op);
      var live := Select(Written(s, op).rows, KeepUnexpired(now));
      SelectDistinct(Written(s, op).rows, KeepUnexpired(now));
      SubsetSize(OwnerlessKiosks(live), OwnerlessKiosks(Written(s, op).rows));
      FewNotDoomed(live);
    }
  }

  // ---------------------------------------------------------------- what is answered, and what it leaves

  /** The kiosk has a record that a socket owns or that has not expired. */
  ghost predicate Alive(s: State, kiosk: string, now: int) {
    Find(s.rows, kiosk).Some? && (Find(s.rows, kiosk).value.owner.Some? || now < Find(s.rows, kiosk).value.expiresAt)
  }

  /** The record's history still bars the session. */
  ghost predicate StillRetired(r: Record, session: string, now: int) {
    exists i :: 0 <= i < |r.retired| && r.retired[i].session == session && now < r.retired[i].expires
  }

  /**
    A heartbeat is allowed exactly when its session is the live record's and it is no older than the record, or when
    there is no live record, or one that nobody owns, of another session, that has not retired this one.
  */
  lemma HeartbeatAllowedExactly(s: State, kiosk: string, sample: Sample, now: int)
    ensures HeartbeatAllowed(s, kiosk, Some(sample), now) <==>
              || !Alive(s, kiosk, now)
              || (var r := Find(s.rows, kiosk).value;
                  if r.session == sample.session then r.revision <= sample.revision
                  else r.owner.None? && !StillRetired(r, sample.session, now))
    ensures !HeartbeatAllowed(s, kiosk, None, now)
  {
  }

  /** The same over runs: a stale sample of the current session, or a retired session, never passes. */
  lemma StaleHeartbeatRefused(states: seq<State>, ops: seq<Op>, start: int, n: nat, kiosk: string, sample: Sample,
      now: int)
    requires IsRun(states, ops, start) && n <= |ops| && Alive(states[n], kiosk, now)
    requires var r := Find(states[n].rows, kiosk).value;
             if r.session == sample.session then sample.revision < r.revision
             else r.owner.Some? || StillRetired(r, sample.session, now)
    ensures !HeartbeatAllowed(states[n], kiosk, Some(sample), now)
    ensures Distinct(states[n].rows) && Find(Step(states[n], Heartbeat(kiosk, Some(sample), now)).rows, kiosk)
                                        == Find(states[n].rows, kiosk)
  {
    RunInv(states, ops, start, n);
    HeartbeatAllowedExactly(states[n], kiosk, sample, now);
    WrittenFind(states[n], Heartbeat(kiosk, Some(sample), now), kiosk);
  }

  /** A report counts exactly when its session is the live record's and it is no older. */
  lemma SampleAllowedExactly(s: State, kiosk: string, sample: Sample, now: int)
    ensures SampleAllowed(Current(s, kiosk, now), sample) <==>
              && Alive(s, kiosk, now) && Find(s.rows, kiosk).value.session == sample.session
              && Find(s.rows, kiosk).value.revision <= sample.revision
  {
  }

  /** An accepted report becomes the record's revision and keeps it for thirty minutes; another changes nothing. */
  lemma AdvanceRecords(s: State, kiosk: string, sample: Sample, now: int)
    requires Distinct(s.rows) && Alive(s, kiosk, now)
    ensures
      var before, after := Find(s.rows, kiosk).value, Find(Step(s, Advance(kiosk, sample, now)).rows, kiosk);
      after == Some(if before.session == sample.session && before.revision <= sample.revision
                    then before.(revision := sample.revision, expiresAt := now + HISTORY_MS) else before)
  {
    WrittenFind(s, Advance(kiosk, sample, now), kiosk);
  }

  /** A socket's unbind gives its record up with session and history, for thirty minutes from its first clock read. */
  lemma UnbindReleases(s: State, kiosk: string, socket: Socket, released: int, now: int)
    requires Distinct(s.rows) && Find(s.rows, kiosk).Some? && Find(s.rows, kiosk).value.owner == Some(socket)
    ensures
      var op := Unbind(kiosk, socket, released, now);
      var before, after := Find(s.rows, kiosk).value, Find(Step(s, op).rows, kiosk);
      if after.None? then released + HISTORY_MS <= now || StepEvicts(s, op, kiosk)
      else after.value == before.(owner := None, expiresAt := released + HISTORY_MS)
  {
    StepFind(s, Unbind(kiosk, socket, released, now), kiosk);
  }

  /** A sweep that is due leaves no lapsed ownerless record, and is due again a minute later. */
  lemma SweepDropsLapsed(s: State, now: int, mayGrow: bool, row: Row)
    requires (s.nextSweep <= now || mayGrow) && row in Prune(s, now, mayGrow).rows && row.record.owner.None?
    ensures now < row.record.expiresAt && row in s.rows && Prune(s, now, mayGrow).nextSweep == now + 60_000
  {
  }

  /** An operation that may leave one more ownerless record than there were. */
  ghost predicate MayGrow(s: State, op: Op) {
    var r := Find(s.rows, op.kiosk);
    match op
    case Bind(_, _, sample, now) => sample.None? && r.Some? && r.value.owner.Some?
    case Unbind(_, socket, _, _) => r.Some? && r.value.owner == Some(socket)
    case Heartbeat(_, sample, now) => sample.Some? && !Alive(s, op.kiosk, now)
    case _ => false
  }

  lemma GrowthSweeps(s: State, op: Op)
    ensures MayGrow(s, op) <==> Pruning(s, op) == Some(true)
  {
    assert Current(s, op.kiosk, op.now).None? <==> !Alive(s, op.kiosk, op.now);
  }

  /** Sweeps happen at once where the ownerless records may have grown, and otherwise not before one is due. */
  lemma SweepsWhenDue(s: State, op: Op, other: string)
    requires Distinct(s.rows)
    ensures MayGrow(s, op) ==> Step(s, op).nextSweep == op.now + 60_000
    ensures !MayGrow(s, op) && op.now < s.nextSweep ==>
              && Step(s, op).nextSweep == s.nextSweep
              && (other != op.kiosk ==> Find(Step(s, op).rows, other) == Find(s.rows, other))
  {
    GrowthSweeps(s, op);
    WrittenFind(s, op, other);
    assert Written(s, op).nextSweep == s.nextSweep;
  }

  ghost predicate Sorted(rows: seq<Row>) {
    forall i, j | 0 <= i < j < |rows| :: rows[i].record.expiresAt <= rows[j].record.expiresAt
  }

  lemma {:induction false} InsertSorted(sorted: seq<Row>, row: Row)
    requires Sorted(sorted)
    ensures Sorted(Insert(sorted, row)) && forall r :: r in Insert(sorted, row) <==> r in sorted || r == row
  {
    if sorted != [] && row.record.expiresAt < sorted[|sorted|-1].record.expiresAt {
      var init := sorted[..|sorted|-1];
      InsertSorted(init, row);
      assert sorted == init + [sorted[|sorted|-1]];
      forall r | r in Insert(init, row) ensures r.record.expiresAt <= sorted[|sorted|-1].record.expiresAt {
        if r in init { var i :| 0 <= i < |init| && init[i] == r; }
      }
    }
  }

  lemma {:induction false} SortSorted(rows: seq<Row>)
    ensures Sorted(SortByExpiry(rows)) && forall r :: r in SortByExpiry(rows) <==> r in rows
  {
    if rows != [] {
      SortSorted(rows[..|rows|-1]);
      InsertSorted(SortByExpiry(rows[..|rows|-1]), rows[|rows|-1]);
      assert rows == rows[..|rows|-1] + [rows[|rows|-1]];
    }
  }

  /** Capacity takes the ownerless records closest to expiry: none of those taken outlasts one that is kept. */
  lemma EvictedExpireFirst(rows: seq<Row>, a: Row, b: Row)
    requires Distinct(rows) && a in rows && b in rows && a.record.owner.None? && b.record.owner.None?
    requires a.kiosk in Doomed(rows) && b.kiosk !in Doomed(rows)
    ensures a.record.expiresAt <= b.record.expiresAt
  {
    var sorted, n := SortByExpiry(Ownerless(rows)), |Ownerless(rows)| - MAX_OWNERLESS;
    SortSorted(Ownerless(rows));
    DoomedAreFirst(rows);
    var i :| 0 <= i < n && sorted[i].kiosk == a.kiosk;
    var j :| 0 <= j < |sorted| && sorted[j] == b;
    assert sorted[i] == a by { assert sorted[i] in rows; OneRow(rows, sorted[i], a); }
    assert n <= j;
  }

  lemma OneRow(rows: seq<Row>, a: Row, b: Row)
    requires Distinct(rows) && a in rows && b in rows && a.kiosk == b.kiosk
    ensures a == b
  {
  }

  // ---------------------------------------------------------------- replaced sessions stay out

  /** The kiosk's record bars `session` until the given time, with at most `depth` newer retirements. */
  ghost predicate Bars(record: Option<Record>, session: string, until: int, depth: nat) {
    && record.Some? && record.value.session != session
    && exists i :: 0 <= i < |record.value.retired| && record.value.retired[i] == Retired(session, until)
                   && |record.value.retired| - 1 - i <= depth
  }

  ghost predicate Retires(s: State, op: Op, kiosk: string) {
    && op.kiosk == kiosk && Current(s, kiosk, op.now).Some? && Intended(s, op).Some?
    && Intended(s, op).value.session != Current(s, kiosk, op.now).value.session
  }

  ghost predicate Rebinds(op: Op, kiosk: string, session: string) {
    op.Bind? && op.kiosk == kiosk && op.sample.Some? && op.sample.value.session == session
  }

  lemma {:induction false} KeepRetiredKeeps(retired: seq<Retired>, session: string, now: int, i: nat) returns (j: nat)
    requires i < |retired| && retired[i].session != session && now < retired[i].expires
    ensures j < |KeepRetired(retired, session, now)| && KeepRetired(retired, session, now)[j] == retired[i]
    ensures |KeepRetired(retired, session, now)| - j <= |retired| - i
  {
    if i == 0 {
      j := 0;
      KeepRetiredShrinks(retired[1..], session, now);
    } else {
      j := KeepRetiredKeeps(retired[1..], session, now, i - 1);
      if retired[0].session != session && now < retired[0].expires {
        j := j + 1;
      }
    }
  }

  lemma SuccessorBars(previous: Record, sample: Sample, owner: Option<Socket>, now: int,
                      session: string, until: int, depth: nat)
    requires Bars(Some(previous), session, until, depth) && now < until && sample.session != session
    requires depth + 1 < MAX_RETIRED || (depth < MAX_RETIRED && previous.session == sample.session)
    ensures Bars(Some(Successor(Some(previous), sample, owner, now)), session, until,
                 depth + if previous.session != sample.session then 1 else 0)
  {
    var i :| 0 <= i < |previous.retired| && previous.retired[i] == Retired(session, until)
             && |previous.retired| - 1 - i <= depth;
    var j := KeepRetiredKeeps(previous.retired, sample.session, now, i);
    var kept := KeepRetired(previous.retired, sample.session, now);
    var longer := if previous.session != sample.session
                  then kept + [Retired(previous.session, now + HISTORY_MS)] else kept;
    var r := Successor(Some(previous), sample, owner, now);
    var dropped := |longer| - |r.retired|;
    assert longer[j] == Retired(session, until);
    assert dropped <= j && r.retired == longer[dropped..];
    assert r.retired[j - dropped] == Retired(session, until);
  }

  lemma BarStep(s: State, op: Op, latest: int, kiosk: string, session: string, until: int, depth: nat)
    requires Inv(s, latest) && InTime(op, latest) && op.now < until
    requires Bars(Find(s.rows, kiosk), session, until, depth)
    requires !Rebinds(op, kiosk, session) && !StepEvicts(s, op, kiosk)
    requires depth + (if Retires(s, op, kiosk) then 1 else 0) < MAX_RETIRED
    ensures Bars(Find(Step(s, op).rows, kiosk), session, until, depth + if Retires(s, op, kiosk) then 1 else 0)
  {
    var record := Find(s.rows, kiosk).value;
    assert RecordInv(record, latest);
    assert !Lapsed(record, op.now);
    StepFind(s, op, kiosk);
    if op.kiosk == kiosk {
      match op
      case Bind(_, socket, Some(sample), now) =>
        SuccessorBars(record, sample, Some(socket), now, session, until, depth);
      case Heartbeat(_, Some(sample), now) =>
        if Retires(s, op, kiosk) {
          SuccessorBars(record, Sample(sample.session, -1), None, now, session, until, depth);
        }
      case _ =>
    }
  }

  lemma BarredHeartbeatRefused(s: State, latest: int, kiosk: string, sample: Sample, until: int, depth: nat, now: int)
    requires Inv(s, latest) && now < until && Bars(Find(s.rows, kiosk), sample.session, until, depth)
    ensures !HeartbeatAllowed(s, kiosk, Some(sample), now)
  {
    assert RecordInv(Find(s.rows, kiosk).value, latest);
  }

  ghost predicate IsRun(states: seq<State>, ops: seq<Op>, start: int) {
    && |states| == |ops| + 1 && states[0] == State([], 0)
    && forall i | 0 <= i < |ops| :: Happens(states, ops, start, i)
  }

  ghost predicate Happens(states: seq<State>, ops: seq<Op>, start: int, i: int)
    requires 0 <= i < |ops| < |states|
  {
    InTime(ops[i], Clock(ops, start, i)) && states[i+1] == Step(states[i], ops[i])
  }

  /** Latest clock reading before operation i. */
  ghost function Clock(ops: seq<Op>, start: int, i: nat): int
    requires i <= |ops|
  {
    if i == 0 then start else ops[i-1].now
  }

  ghost function Count(flags: seq<bool>): nat {
    if flags == [] then 0 else Count(flags[..|flags|-1]) + if flags[|flags|-1] then 1 else 0
  }

  /** Which operations retire a session of this kiosk. */
  ghost function Retiring(states: seq<State>, ops: seq<Op>, kiosk: string): (flags: seq<bool>)
    requires |ops| < |states|
    ensures |flags| == |ops|
  {
    seq(|ops|, m requires 0 <= m < |ops| => Retires(states[m], ops[m], kiosk))
  }

  ghost function Retirements(states: seq<State>, ops: seq<Op>, kiosk: string, i: nat, j: nat): nat
    requires i <= j <= |ops| < |states|
  {
    Count(Retiring(states, ops, kiosk)[i..j])
  }

  lemma EmptyInv(start: int)
    ensures Inv(State([], 0), start)
  {
    assert OwnerlessKiosks([]) == {};
    assert forall kiosk :: Find([], kiosk).None?;
  }

  lemma {:induction false} RunInv(states: seq<State>, ops: seq<Op>, start: int, i: nat)
    requires IsRun(states, ops, start) && i <= |ops|
    ensures Inv(states[i], Clock(ops, start, i))
  {
    if i == 0 {
      EmptyInv(start);
    } else {
      RunInv(states, ops, start, i - 1);
      assert Happens(states, ops, start, i - 1);
      StepInv(states[i-1], ops[i-1], Clock(ops, start, i - 1));
    }
  }

  lemma {:induction false} ClockNeverGoesBack(states: seq<State>, ops: seq<Op>, start: int, i: nat, j: nat)
    requires IsRun(states, ops, start) && i <= j < |ops|
    ensures ops[i].now <= ops[j].now
    decreases j
  {
    if i < j {
      ClockNeverGoesBack(states, ops, start, i, j - 1);
      assert Happens(states, ops, start, j);
    }
  }

  /** Operation m neither rebinds the session nor evicts the kiosk's record, and comes before the bar ends. */
  ghost predicate Quiet(states: seq<State>, ops: seq<Op>, m: int, kiosk: string, session: string, until: int)
    requires 0 <= m < |ops| < |states|
  {
    ops[m].now < until && !Rebinds(ops[m], kiosk, session) && !StepEvicts(states[m], ops[m], kiosk)
  }

  lemma BarRunStep(states: seq<State>, ops: seq<Op>, start: int, m: nat,
                   kiosk: string, session: string, until: int, depth: nat)
    requires IsRun(states, ops, start) && m < |ops| && Quiet(states, ops, m, kiosk, session, until)
    requires Bars(Find(states[m].rows, kiosk), session, until, depth)
    requires depth + (if Retires(states[m], ops[m], kiosk) then 1 else 0) < MAX_RETIRED
    ensures Bars(Find(states[m+1].rows, kiosk), session, until,
                 depth + if Retires(states[m], ops[m], kiosk) then 1 else 0)
  {
    RunInv(states, ops, start, m);
    assert Happens(states, ops, start, m);
    BarStep(states[m], ops[m], Clock(ops, start, m), kiosk, session, until, depth);
  }

  lemma RetirementsStep(states: seq<State>, ops: seq<Op>, kiosk: string, i: nat, j: nat)
    requires i < j <= |ops| < |states|
    ensures Retirements(states, ops, kiosk, i, j)
         == Retirements(states, ops, kiosk, i, j - 1) + if Retires(states[j-1], ops[j-1], kiosk) then 1 else 0
  {
    var flags := Retiring(states, ops, kiosk);
    assert flags[i..j][..j - i - 1] == flags[i..j-1];
  }

  lemma {:induction false} BarHolds(states: seq<State>, ops: seq<Op>, start: int, i: nat, j: nat,
                                    kiosk: string, session: string, until: int)
    requires IsRun(states, ops, start) && i <= j <= |ops| && Bars(Find(states[i].rows, kiosk), session, until, 0)
    requires forall m | i <= m < j :: Quiet(states, ops, m, kiosk, session, until)
    requires Retirements(states, ops, kiosk, i, j) < MAX_RETIRED
    ensures Bars(Find(states[j].rows, kiosk), session, until, Retirements(states, ops, kiosk, i, j))
    decreases j
  {
    if i == j {
      assert Retiring(states, ops, kiosk)[i..i] == [];
    } else {
      RetirementsStep(states, ops, kiosk, i, j);
      BarHolds(states, ops, start, i, j - 1, kiosk, session, until);
      BarRunStep(states, ops, start, j - 1, kiosk, session, until, Retirements(states, ops, kiosk, i, j - 1));
    }
  }

  lemma ReplacementBars(s: State, op: Op, latest: int, kiosk: string)
    requires Inv(s, latest) && InTime(op, latest) && Retires(s, op, kiosk) && !StepEvicts(s, op, kiosk)
    ensures Bars(Find(Step(s, op).rows, kiosk), Current(s, kiosk, op.now).value.session, op.now + HISTORY_MS, 0)
  {
    StepFind(s, op, kiosk);
    var next := Intended(s, op).value;
    assert next.retired[|next.retired|-1] == Retired(Current(s, kiosk, op.now).value.session, op.now + HISTORY_MS);
  }

  /**
    A session replaced by operation i cannot be re-established by a heartbeat within thirty minutes,
    unless a socket rebinds it, eight later retirements displace it, or capacity evicts the record.
  */
  lemma ReplacedSessionStaysOut(states: seq<State>, ops: seq<Op>, start: int, i: nat, j: nat,
                                kiosk: string, session: string, revision: int)
    requires IsRun(states, ops, start) && i < j < |ops|
    requires Retires(states[i], ops[i], kiosk) && Current(states[i], kiosk, ops[i].now).value.session == session
    requires ops[j].now < ops[i].now + HISTORY_MS
    requires forall m | i <= m < j :: !StepEvicts(states[m], ops[m], kiosk)
    requires forall m | i < m < j :: !Rebinds(ops[m], kiosk, session)
    requires Retirements(states, ops, kiosk, i + 1, j) < MAX_RETIRED
    ensures !HeartbeatAllowed(states[j], kiosk, Some(Sample(session, revision)), ops[j].now)
  {
    var until := ops[i].now + HISTORY_MS;
    assert Bars(Find(states[i+1].rows, kiosk), session, until, 0) by {
      RunInv(states, ops, start, i);
      assert Happens(states, ops, start, i);
      ReplacementBars(states[i], ops[i], Clock(ops, start, i), kiosk);
    }
    forall m | i + 1 <= m < j ensures Quiet(states, ops, m, kiosk, session, until) {
      ClockNeverGoesBack(states, ops, start, m, j);
    }
    BarHolds(states, ops, start, i + 1, j, kiosk, session, until);
    RunInv(states, ops, start, j);
    BarredHeartbeatRefused(states[j], Clock(ops, start, j), kiosk, Sample(session, revision), until,
                           Retirements(states, ops, kiosk, i + 1, j), ops[j].now);
  }
}
