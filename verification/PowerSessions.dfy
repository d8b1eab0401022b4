/**
  Ordering of display power reports: one record per kiosk with its current session, the socket that
  owns it, and a bounded list of retired sessions that HTTP heartbeats may not bring back.

  Maps that keep insertion order are sequences here. Times are milliseconds and never go back.
*/
module PowerSessions {
  import opened Common

  const HISTORY_MS := 30 * 60_000
  const SWEEP_MS := 60_000
  const MAX_OWNERLESS := 4096
  const MAX_RETIRED := 8

  type Socket = nat

  datatype Sample = Sample(session: string, revision: int)
  datatype Retired = Retired(session: string, expires: int)
  datatype Record = Record(
    session: string, revision: int, owner: Option<Socket>, expiresAt: int, retired: seq<Retired>)
  datatype Row = Row(kiosk: string, record: Record)
  datatype State = State(rows: seq<Row>, nextSweep: int)

  // ---------------------------------------------------------------- the insertion-ordered table

  function Index(rows: seq<Row>, kiosk: string): (i: nat)
    ensures i <= |rows|
    ensures i < |rows| ==> rows[i].kiosk == kiosk
    ensures forall j | 0 <= j < i :: rows[j].kiosk != kiosk
  {
    if rows == [] || rows[0].kiosk == kiosk then 0 else 1 + Index(rows[1..], kiosk)
  }

  function Find(rows: seq<Row>, kiosk: string): Option<Record> {
    var i := Index(rows, kiosk);
    if i < |rows| then Some(rows[i].record) else None
  }

  function Set(rows: seq<Row>, kiosk: string, record: Record): seq<Row> {
    var i := Index(rows, kiosk);
    if i < |rows| then rows[i := Row(kiosk, record)] else rows + [Row(kiosk, record)]
  }

  function Delete(rows: seq<Row>, kiosk: string): seq<Row> {
    var i := Index(rows, kiosk);
    if i < |rows| then rows[..i] + rows[i+1..] else rows
  }

  ghost predicate Distinct(rows: seq<Row>) {
    forall i, j | 0 <= i < j < |rows| :: rows[i].kiosk != rows[j].kiosk
  }

  function Select(rows: seq<Row>, keep: Row -> bool): (r: seq<Row>)
    ensures forall row :: row in r <==> row in rows && keep(row)
  {
    if rows == [] then []
    else if keep(rows[0]) then [rows[0]] + Select(rows[1..], keep)
    else Select(rows[1..], keep)
  }

  // ---------------------------------------------------------------- pruning

  /** Stable sort by expiry: an equal later row stays behind an equal earlier one. */
  function Insert(sorted: seq<Row>, row: Row): seq<Row> {
    if sorted == [] || sorted[|sorted|-1].record.expiresAt <= row.record.expiresAt then sorted + [row]
    else Insert(sorted[..|sorted|-1], row) + [sorted[|sorted|-1]]
  }

  function SortByExpiry(rows: seq<Row>): seq<Row> {
    if rows == [] then [] else Insert(SortByExpiry(rows[..|rows|-1]), rows[|rows|-1])
  }

  predicate Unexpired(row: Row, now: int) { row.record.owner.Some? || now < row.record.expiresAt }

  predicate IsOwnerless(row: Row) { row.record.owner.None? }

  function KeepUnexpired(now: int): Row -> bool { (row: Row) => Unexpired(row, now) }

  function KeepOutside(kiosks: set<string>): Row -> bool { (row: Row) => row.kiosk !in kiosks }

  function Ownerless(rows: seq<Row>): seq<Row> {
    Select(rows, IsOwnerless)
  }

  /** Kiosks the capacity rule evicts from rows that have not expired. */
  function Doomed(rows: seq<Row>): set<string> {
    var ownerless := Ownerless(rows);
    if |ownerless| <= MAX_OWNERLESS then {}
    else set row | row in SortByExpiry(ownerless)[..SortedLength(ownerless, |ownerless| - MAX_OWNERLESS)] :: row.kiosk
  }

  function SortedLength(rows: seq<Row>, n: nat): (m: nat)
    requires n <= |rows|
    ensures m == n <= |SortByExpiry(rows)|
  {
    SortSameLength(rows);
    n
  }

  lemma {:induction false} InsertLength(sorted: seq<Row>, row: Row)
    ensures |Insert(sorted, row)| == |sorted| + 1
    ensures multiset(Insert(sorted, row)) == multiset(sorted) + multiset{row}
  {
    if sorted != [] && row.record.expiresAt < sorted[|sorted|-1].record.expiresAt {
      InsertLength(sorted[..|sorted|-1], row);
      assert sorted == sorted[..|sorted|-1] + [sorted[|sorted|-1]];
    }
  }

  lemma {:induction false} SortSameLength(rows: seq<Row>)
    ensures |SortByExpiry(rows)| == |rows|
    ensures multiset(SortByExpiry(rows)) == multiset(rows)
  {
    if rows != [] {
      SortSameLength(rows[..|rows|-1]);
      InsertLength(SortByExpiry(rows[..|rows|-1]), rows[|rows|-1]);
      assert rows == rows[..|rows|-1] + [rows[|rows|-1]];
    }
  }

  function Prune(s: State, now: int, capacityMayIncrease: bool): State {
    if now < s.nextSweep && !capacityMayIncrease then s else
    var live := Select(s.rows, KeepUnexpired(now));
    State(Select(live, KeepOutside(Doomed(live))), now + SWEEP_MS)
  }

  // ---------------------------------------------------------------- operations

  predicate Lapsed(record: Record, now: int) { record.owner.None? && record.expiresAt <= now }

  /** Reading a kiosk's record drops it when it is ownerless and past its expiry. */
  function Expire(s: State, kiosk: string, now: int): State {
    var r := Find(s.rows, kiosk);
    if r.Some? && Lapsed(r.value, now) then s.(rows := Delete(s.rows, kiosk)) else s
  }

  function Current(s: State, kiosk: string, now: int): Option<Record> {
    var r := Find(s.rows, kiosk);
    if r.Some? && Lapsed(r.value, now) then None else r
  }

  function KeepRetired(retired: seq<Retired>, session: string, now: int): seq<Retired> {
    if retired == [] then []
    else if retired[0].session != session && now < retired[0].expires
    then [retired[0]] + KeepRetired(retired[1..], session, now)
    else KeepRetired(retired[1..], session, now)
  }

  function LastRetired(retired: seq<Retired>): seq<Retired> {
    if |retired| > MAX_RETIRED then retired[|retired| - MAX_RETIRED..] else retired
  }

  function NextRetired(previous: Option<Record>, session: string, now: int): seq<Retired> {
    if previous.None? then [] else
    var kept := KeepRetired(previous.value.retired, session, now);
    LastRetired(if previous.value.session != session
                then kept + [Retired(previous.value.session, now + HISTORY_MS)] else kept)
  }

  function Successor(previous: Option<Record>, sample: Sample, owner: Option<Socket>, now: int): Record {
    var revision := if previous.Some? && previous.value.session == sample.session
      && sample.revision < previous.value.revision
                    then previous.value.revision else sample.revision;
    Record(sample.session, revision, owner, now + HISTORY_MS, NextRetired(previous, sample.session, now))
  }

  /** Gives up ownership and restarts the record's expiry. */
  function Released(record: Record, now: int): Record {
    record.(owner := None, expiresAt := now + HISTORY_MS)
  }

  datatype Op =
    | Bind(kiosk: string, socket: Socket, sample: Option<Sample>, now: int)
    | Unbind(kiosk: string, socket: Socket, released: int, now: int)
    | Heartbeat(kiosk: string, sample: Option<Sample>, now: int)
    | Advance(kiosk: string, reported: Sample, now: int)
    | Look(kiosk: string, now: int)

  /** HTTP may not replace a live socket's session, nor bring back a retired one. */
  predicate HeartbeatBarred(record: Option<Record>, session: string, now: int) {
    record.Some? && (record.value.owner.Some?
                     || exists i :: 0 <= i < |record.value.retired| && record.value.retired[i].session == session
                                    && now < record.value.retired[i].expires)
  }

  /** The record an operation leaves its kiosk with, before any pruning. */
  function Intended(s: State, op: Op): Option<Record> {
    var held, current := Find(s.rows, op.kiosk), Current(s, op.kiosk, op.now);
    match op
    case Bind(_, socket, Some(sample), now) => Some(Successor(current, sample, Some(socket), now))
    case Bind(_, _, None, now) => if current.None? then None else Some(Released(current.value, now))
    case Unbind(_, socket, released, _) =>
      if held.Some? && held.value.owner == Some(socket) then Some(Released(held.value, released)) else held
    case Heartbeat(_, None, _) => held
    case Heartbeat(_, Some(sample), now) =>
      if (current.Some? && current.value.session == sample.session) || HeartbeatBarred(current, sample.session, now)
      then current else Some(Successor(current, Sample(sample.session, -1), None, now))
    case Advance(_, sample, now) =>
      if SampleAllowed(current, sample)
      then Some(current.value.(revision := sample.revision, expiresAt := now + HISTORY_MS)) else current
    case Look(_, _) => current
  }

  /** Operations that prune, and whether they may have added an ownerless record. */
  function Pruning(s: State, op: Op): Option<bool> {
    var held, current := Find(s.rows, op.kiosk), Current(s, op.kiosk, op.now);
    match op
    case Bind(_, _, Some(_), _) => Some(false)
    case Bind(_, _, None, _) => Some(current.Some? && current.value.owner.Some?)
    case Unbind(_, socket, _, _) => if held.Some? && held.value.owner == Some(socket) then Some(true) else None
    case Heartbeat(_, Some(sample), now) =>
      if (current.Some? && current.value.session == sample.session) || HeartbeatBarred(current, sample.session, now)
      then None else Some(current.None?)
    case _ => None
  }

  function Written(s: State, op: Op): State {
    var s1 := if op.Unbind? || op == Heartbeat(op.kiosk, None, op.now) then s else Expire(s, op.kiosk, op.now);
    var next := Intended(s, op);
    if next.Some? && next != Find(s1.rows, op.kiosk) then s1.(rows := Set(s1.rows, op.kiosk, next.value)) else s1
  }

  function Step(s: State, op: Op): State {
    match Pruning(s, op)
    case None => Written(s, op)
    case Some(mayGrow) => Prune(Written(s, op), op.now, mayGrow)
  }

  predicate SampleAllowed(current: Option<Record>, sample: Sample) {
    current.Some? && current.value.session == sample.session && current.value.revision <= sample.revision
  }

  /** What the heartbeat route answers. */
  predicate HeartbeatAllowed(s: State, kiosk: string, sample: Option<Sample>, now: int) {
    sample.Some? &&
    var current := Current(s, kiosk, now);
    if current.Some? && current.value.session == sample.value.session
    then current.value.revision <= sample.value.revision
    else !HeartbeatBarred(current, sample.value.session, now)
  }
}
