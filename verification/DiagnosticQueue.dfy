/**
  The bounded queue of application diagnostics: events and panics push, one uploader restores, spools, sends and
  retains, and the process may restart at any moment. Each section under the queue's lock is one step.
*/
module DiagnosticQueue {
  import opened Common

  const BATCH_SIZE: nat := 100
  const QUEUE_SIZE: nat := 1000

  /** `stamp` is the entry's place in the order of logging, over all the runs of the process. */
  datatype Entry = Entry(id: string, stamp: nat)

  datatype Spool = Spool(owner: string, entries: seq<Entry>)

  datatype Flight = Flight(owner: string, batch: seq<Entry>)

  /** `clock` counts the entries ever made, `held` says under which owner an entry was first held. */
  datatype State = State(
    queue: seq<Entry>, owner: Option<string>, restored: bool, spool: Option<Spool>, flight: Option<Flight>,
    clock: nat, held: map<nat, string>)

  datatype Op =
    | Log(id: string, locked: bool)                      // `locked`: the queue's lock could be taken
    | Panic(id: string, locked: bool, saved: bool)       // `saved`: the write took effect
    | Collect(owner: string, readable: bool, saved: bool)
    | Uploaded(saved: bool)
    | UploadFailed
    | Restart

  function Last(s: seq<Entry>, n: nat): seq<Entry> {
    if |s| <= n then s else s[|s| - n..]
  }

  function Pushed(q: seq<Entry>, e: Entry): seq<Entry> {
    Last(q + [e], QUEUE_SIZE)
  }

  /** What is kept of q when the entries with these ids have been uploaded. */
  function Kept(q: seq<Entry>, ids: set<string>): (r: seq<Entry>)
    ensures forall e :: e in r <==> e in q && e.id !in ids
    ensures |r| <= |q|
  {
    if q == [] then [] else Kept(q[..|q|-1], ids) + if q[|q|-1].id in ids then [] else [q[|q|-1]]
  }

  function Ids(batch: seq<Entry>): set<string> {
    set e | e in batch :: e.id
  }

  /** The spool this owner may take back, if it can be read. */
  function Restorable(spool: Option<Spool>, owner: string, readable: bool): seq<Entry> {
    if readable && spool.Some? && spool.value.owner == owner then spool.value.entries else []
  }

  /** The queue once the uploader knows its owner: cleared for a new one, restored once, cut to the newest. */
  function Refilled(s: State, owner: string, readable: bool): seq<Entry> {
    var live := if s.owner.Some? && s.owner.value != owner then [] else s.queue;
    Last((if s.restored then [] else Restorable(s.spool, owner, readable)) + live, QUEUE_SIZE)
  }

  function Stamps(q: seq<Entry>): set<nat> {
    set e | e in q :: e.stamp
  }

  function HeldBy(q: seq<Entry>, owner: string): map<nat, string> {
    map stamp | stamp in Stamps(q) :: owner
  }

  function Pending(owner: string, q: seq<Entry>): Option<Flight> {
    if q == [] then None else Some(Flight(owner, if |q| <= BATCH_SIZE then q else q[..BATCH_SIZE]))
  }

  predicate Enabled(s: State, op: Op) {
    match op
    case Collect(_, _, _) => s.flight.None?
    case Uploaded(_) => s.flight.Some?
    case UploadFailed => s.flight.Some?
    case _ => true
  }

  function Step(s: State, op: Op): State
    requires Enabled(s, op)
  {
    match op
    case Log(id, locked) =>
      var e := Entry(id, s.clock);
      if !locked then s.(clock := s.clock + 1)
      else s.(queue := Pushed(s.queue, e), clock := s.clock + 1,
              held := if s.owner.Some? then s.held[e.stamp := s.owner.value] else s.held)
    case Panic(id, locked, saved) =>
      var e := Entry(id, s.clock);
      if !locked || s.owner.None? then s.(clock := s.clock + 1)
      else s.(queue := Pushed(s.queue, e), clock := s.clock + 1, held := s.held[e.stamp := s.owner.value],
              spool := if saved then Some(Spool(s.owner.value, Pushed(s.queue, e))) else s.spool)
    case Collect(owner, readable, saved) =>
      var q := Refilled(s, owner, readable);
      s.(queue := q, owner := Some(owner), restored := true, flight := Pending(owner, q),
         held := s.held + HeldBy(q, owner),
         spool := if saved && q != [] then Some(Spool(owner, q)) else s.spool)
    case Uploaded(saved) =>
      var q := Kept(s.queue, Ids(s.flight.value.batch));
      s.(queue := q, flight := None, spool := if saved then Some(Spool(s.flight.value.owner, q)) else s.spool)
    case UploadFailed => s.(flight := None)
    case Restart => s.(queue := [], owner := None, restored := false, flight := None)
  }

  // ---------------------------------------------------------------- invariants

  ghost predicate Ascending(q: seq<Entry>) {
    forall i, j | 0 <= i < j < |q| :: q[i].stamp < q[j].stamp
  }

  ghost predicate Before(q: seq<Entry>, clock: nat) {
    forall e | e in q :: e.stamp < clock
  }

  ghost predicate Older(p: seq<Entry>, q: seq<Entry>) {
    forall a, b | a in p && b in q :: a.stamp < b.stamp
  }

  ghost predicate AllHeld(held: map<nat, string>, q: seq<Entry>, owner: string) {
    forall e | e in q :: e.stamp in held && held[e.stamp] == owner
  }

  ghost predicate OrderInv(s: State) {
    && |s.queue| <= QUEUE_SIZE && Ascending(s.queue) && Before(s.queue, s.clock)
    && (s.spool.Some? ==> Ascending(s.spool.value.entries) && Before(s.spool.value.entries, s.clock)
                          && |s.spool.value.entries| <= QUEUE_SIZE)
    && (!s.restored && s.spool.Some? ==> Older(s.spool.value.entries, s.queue))
    && (s.restored <==> s.owner.Some?)
    && (s.flight.Some? ==> s.owner == Some(s.flight.value.owner))
    && (forall stamp | stamp in s.held :: stamp < s.clock)
  }

  ghost predicate OwnerInv(s: State) {
    && (s.owner.Some? ==> AllHeld(s.held, s.queue, s.owner.value))
    && (s.owner.None? ==> forall e | e in s.queue :: e.stamp !in s.held)
    && (s.spool.Some? ==> AllHeld(s.held, s.spool.value.entries, s.spool.value.owner))
    && (s.flight.Some? ==> AllHeld(s.held, s.flight.value.batch, s.flight.value.owner))
  }

  ghost predicate Inv(s: State) {
    OrderInv(s) && OwnerInv(s)
  }

  lemma LastAscending(q: seq<Entry>, n: nat)
    requires Ascending(q)
    ensures Ascending(Last(q, n)) && forall e | e in Last(q, n) :: e in q
  {
  }

  lemma {:induction false} KeptAscending(q: seq<Entry>, ids: set<string>)
    requires Ascending(q)
    ensures Ascending(Kept(q, ids))
  {
    if q != [] {
      KeptAscending(q[..|q|-1], ids);
      forall e | e in Kept(q[..|q|-1], ids)
        ensures e.stamp < q[|q|-1].stamp
      {
        var i :| 0 <= i < |q| - 1 && q[i] == e;
      }
    }
  }

  lemma PushedAscending(q: seq<Entry>, e: Entry)
    requires Ascending(q) && Before(q, e.stamp)
    ensures Ascending(Pushed(q, e)) && forall x | x in Pushed(q, e) :: x in q || x == e
  {
    LastAscending(q + [e], QUEUE_SIZE);
  }

  lemma JoinAscending(p: seq<Entry>, q: seq<Entry>)
    requires Ascending(p) && Ascending(q) && Older(p, q)
    ensures Ascending(p + q)
  {
  }

  lemma PushOrder(s: State, op: Op)
    requires OrderInv(s) && (op.Log? || op.Panic?)
    ensures OrderInv(Step(s, op))
  {
    var e := Entry(op.id, s.clock);
    PushedAscending(s.queue, e);
  }

  lemma CollectOrder(s: State, op: Op)
    requires OrderInv(s) && Enabled(s, op) && op.Collect?
    ensures OrderInv(Step(s, op))
  {
    var live := if s.owner.Some? && s.owner.value != op.owner then [] else s.queue;
    var all := (if s.restored then [] else Restorable(s.spool, op.owner, op.readable)) + live;
    JoinAscending(if s.restored then [] else Restorable(s.spool, op.owner, op.readable), live);
    assert Before(all, s.clock);
    LastAscending(all, QUEUE_SIZE);
  }

  lemma StepOrder(s: State, op: Op)
    requires OrderInv(s) && Enabled(s, op)
    ensures OrderInv(Step(s, op))
  {
    match op
    case Log(_, _) => PushOrder(s, op);
    case Panic(_, _, _) => PushOrder(s, op);
    case Collect(_, _, _) => CollectOrder(s, op);
    case Uploaded(_) => KeptAscending(s.queue, Ids(s.flight.value.batch));
    case UploadFailed =>
    case Restart =>
  }

  /** Holding is for ever: an entry first held under one owner is never held under another. */
  ghost predicate StillHeld(held: map<nat, string>, held': map<nat, string>) {
    forall stamp | stamp in held :: stamp in held' && held'[stamp] == held[stamp]
  }

  lemma PushOwner(s: State, op: Op)
    requires Inv(s) && (op.Log? || op.Panic?)
    ensures OwnerInv(Step(s, op)) && StillHeld(s.held, Step(s, op).held)
  {
    var e, s' := Entry(op.id, s.clock), Step(s, op);
    PushedAscending(s.queue, e);
    assert StillHeld(s.held, s'.held);
    if s.owner.Some? && op.locked {
      assert AllHeld(s'.held, Pushed(s.queue, e), s.owner.value);
    }
  }

  lemma CollectOwner(s: State, op: Op)
    requires Inv(s) && Enabled(s, op) && op.Collect?
    ensures OwnerInv(Step(s, op)) && StillHeld(s.held, Step(s, op).held)
  {
    var q, s' := Refilled(s, op.owner, op.readable), Step(s, op);
    forall e | e in q && e.stamp in s.held
      ensures s.held[e.stamp] == op.owner
    {
    }
    assert AllHeld(s'.held, q, op.owner);
    assert StillHeld(s.held, s'.held);
  }

  lemma StepOwner(s: State, op: Op)
    requires Inv(s) && Enabled(s, op)
    ensures OwnerInv(Step(s, op)) && StillHeld(s.held, Step(s, op).held)
  {
    match op
    case Log(_, _) => PushOwner(s, op);
    case Panic(_, _, _) => PushOwner(s, op);
    case Collect(_, _, _) => CollectOwner(s, op);
    case _ =>
  }

  // ---------------------------------------------------------------- runs

  ghost predicate Happens(states: seq<State>, ops: seq<Op>, i: int)
    requires 0 <= i < |ops| < |states|
  {
    Enabled(states[i], ops[i]) && states[i+1] == Step(states[i], ops[i])
  }

  ghost predicate IsRun(states: seq<State>, ops: seq<Op>) {
    && |states| == |ops| + 1 && states[0] == State([], None, false, None, None, 0, map[])
    && forall i | 0 <= i < |ops| :: Happens(states, ops, i)
  }

  lemma {:induction false} RunInv(states: seq<State>, ops: seq<Op>, n: nat)
    requires IsRun(states, ops) && n <= |ops|
    ensures Inv(states[n])
  {
    if n > 0 {
      RunInv(states, ops, n - 1);
      assert Happens(states, ops, n - 1);
      StepOrder(states[n-1], ops[n-1]);
      StepOwner(states[n-1], ops[n-1]);
    }
  }

  /** Whenever the lock is free the queue is bounded and in the order of logging, and so is the spool. */
  lemma QueueBoundedInOrder(states: seq<State>, ops: seq<Op>, n: nat)
    requires IsRun(states, ops) && n <= |ops|
    ensures |states[n].queue| <= QUEUE_SIZE && Ascending(states[n].queue)
    ensures states[n].spool.Some? ==>
              |states[n].spool.value.entries| <= QUEUE_SIZE && Ascending(states[n].spool.value.entries)
  {
    RunInv(states, ops, n);
  }

  /** e was the oldest to go from a full queue: the queue is full and everything in it is newer. */
  ghost predicate Overflowed(q: seq<Entry>, e: Entry) {
    |q| == QUEUE_SIZE && forall x | x in q :: e.stamp < x.stamp
  }

  lemma LastDropsOldest(q: seq<Entry>, e: Entry)
    requires Ascending(q) && e in q && e !in Last(q, QUEUE_SIZE)
    ensures Overflowed(Last(q, QUEUE_SIZE), e)
  {
    var i :| 0 <= i < |q| && q[i] == e;
    assert i < |q| - QUEUE_SIZE;
  }

  /**
    An entry leaves the queue only as the oldest of a full queue, by a successful upload of its id, because the
    owner changed, or with the process.
  */
  lemma EntryLeavesOnly(states: seq<State>, ops: seq<Op>, n: nat, e: Entry)
    requires IsRun(states, ops) && n < |ops| && e in states[n].queue && e !in states[n+1].queue
    ensures
      var s, op, s' := states[n], ops[n], states[n+1];
      || ((op.Log? || op.Panic? || op.Collect?) && Overflowed(s'.queue, e))
      || (op.Uploaded? && s.flight.Some? && exists sent :: sent in s.flight.value.batch && sent.id == e.id)
      || (op.Collect? && s.owner.Some? && s.owner != Some(op.owner))
      || op.Restart?
  {
    RunInv(states, ops, n);
    assert Happens(states, ops, n);
    var s, op := states[n], ops[n];
    if op.Log? || op.Panic? {
      var all := s.queue + [Entry(op.id, s.clock)];
      assert e in all;
      LastDropsOldest(all, e);
    } else if op.Collect? && (s.owner.None? || s.owner == Some(op.owner)) {
      var all := (if s.restored then [] else Restorable(s.spool, op.owner, op.readable)) + s.queue;
      JoinAscending(if s.restored then [] else Restorable(s.spool, op.owner, op.readable), s.queue);
      assert e in all;
      LastDropsOldest(all, e);
    } else if op.Uploaded? {
      assert e.id in Ids(s.flight.value.batch);
    }
  }

  /** An entry the queue did not evict while its batch was in flight is gone after the upload; the others stay. */
  lemma UploadRemovesExactlyTheBatch(states: seq<State>, ops: seq<Op>, n: nat, e: Entry)
    requires IsRun(states, ops) && n < |ops| && ops[n].Uploaded?
    ensures states[n].flight.Some?
    ensures e in states[n+1].queue <==>
              e in states[n].queue && forall sent | sent in states[n].flight.value.batch :: sent.id != e.id
  {
    assert Happens(states, ops, n);
    var batch := states[n].flight.value.batch;
    assert e.id in Ids(batch) <==> exists sent :: sent in batch && sent.id == e.id;
  }

  /**
    The first time the uploader has a destination it takes back the last thousand of its spool and the live
    entries.
  */
  lemma RestoreKeepsNewest(states: seq<State>, ops: seq<Op>, n: nat)
    requires IsRun(states, ops) && n < |ops| && ops[n].Collect? && !states[n].restored
    ensures var s, op := states[n], ops[n];
            states[n+1].queue
            == if op.readable && s.spool.Some? && s.spool.value.owner == op.owner
               then Last(s.spool.value.entries + s.queue, QUEUE_SIZE) else s.queue
    ensures Ascending(states[n+1].queue)
  {
    RunInv(states, ops, n);
    RunInv(states, ops, n + 1);
    assert Happens(states, ops, n);
  }

  /** A round with anything queued sends the oldest hundred, or all, under its owner; an empty one sends nothing. */
  lemma OldestHundredAreSent(states: seq<State>, ops: seq<Op>, n: nat)
    requires IsRun(states, ops) && n < |ops| && ops[n].Collect?
    ensures var q, flight := states[n+1].queue, states[n+1].flight;
            && (flight.None? <==> q == [])
            && (flight.Some? ==>
                  && flight.value.owner == ops[n].owner && flight.value.batch <= q
                  && |flight.value.batch| == (if |q| < 100 then |q| else 100)
                  && forall sent, e | sent in flight.value.batch && e in q && e !in flight.value.batch ::
                       sent.stamp < e.stamp)
    ensures ops[n].saved && states[n+1].queue != [] ==>
              states[n+1].spool == Some(Spool(ops[n].owner, states[n+1].queue))
  {
    RunInv(states, ops, n + 1);
    assert Happens(states, ops, n);
  }

  /** What is logged, or reported by a panic under a known owner, is the newest entry of the queue. */
  lemma LoggedEntersLast(states: seq<State>, ops: seq<Op>, n: nat)
    requires IsRun(states, ops) && n < |ops|
    requires (ops[n].Log? && ops[n].locked) || (ops[n].Panic? && ops[n].locked && states[n].owner.Some?)
    ensures var e, q := Entry(ops[n].id, states[n].clock), states[n+1].queue;
            q != [] && q[|q|-1] == e && |q| == (if |states[n].queue| < 1000 then |states[n].queue| + 1 else 1000)
    ensures ops[n].Panic? && ops[n].saved ==>
              states[n+1].spool == Some(Spool(states[n].owner.value, states[n+1].queue))
  {
    RunInv(states, ops, n);
    assert Happens(states, ops, n);
  }

  /** The spool changes only by a save that took effect, to the whole queue under the owner it was saved for. */
  lemma SpoolIsASavedQueue(states: seq<State>, ops: seq<Op>, n: nat)
    requires IsRun(states, ops) && n < |ops|
    ensures
      var s, op, s' := states[n], ops[n], states[n+1];
      && (s'.spool != s.spool ==>
            && (op.Panic? || op.Collect? || op.Uploaded?) && op.saved
            && s'.owner.Some? && s'.spool == Some(Spool(s'.owner.value, s'.queue)))
      && (op.Uploaded? && op.saved ==> s'.owner.Some? && s'.spool == Some(Spool(s'.owner.value, s'.queue)))
  {
    RunInv(states, ops, n);
    assert Happens(states, ops, n);
  }

  /** A round ends with its answer: nothing is in flight after it, and a failed one keeps every entry. */
  lemma RoundEnds(states: seq<State>, ops: seq<Op>, n: nat)
    requires IsRun(states, ops) && n < |ops| && (ops[n].Uploaded? || ops[n].UploadFailed?)
    ensures states[n].flight.Some? && states[n+1].flight.None?
    ensures ops[n].UploadFailed? ==> states[n+1].queue == states[n].queue
  {
    assert Happens(states, ops, n);
  }

  /** What cannot take the lock, and a panic before any owner is known, is not queued. */
  lemma UnlockedIsDropped(states: seq<State>, ops: seq<Op>, n: nat)
    requires IsRun(states, ops) && n < |ops|
    requires (ops[n].Log? && !ops[n].locked) || (ops[n].Panic? && !(ops[n].locked && states[n].owner.Some?))
    ensures states[n+1].queue == states[n].queue && states[n+1].flight == states[n].flight
  {
    assert Happens(states, ops, n);
  }

  lemma {:induction false} HeldForEver(states: seq<State>, ops: seq<Op>, n: nat, m: nat)
    requires IsRun(states, ops) && n <= m <= |ops|
    ensures StillHeld(states[n].held, states[m].held)
    decreases m
  {
    if n < m {
      HeldForEver(states, ops, n, m - 1);
      RunInv(states, ops, m - 1);
      assert Happens(states, ops, m - 1);
      StepOwner(states[m-1], ops[m-1]);
    }
  }

  /**
    An entry that was in the queue or the spool under one owner is never in a batch sent under another, whatever
    owner changes and restarts come between.
  */
  lemma NeverUploadedForAnotherOwner(states: seq<State>, ops: seq<Op>, n: nat, m: nat, stamp: nat)
    requires IsRun(states, ops) && n <= m <= |ops| && states[m].flight.Some?
    requires stamp in Stamps(states[m].flight.value.batch)
    ensures states[n].owner.Some? && stamp in Stamps(states[n].queue) ==>
              states[n].owner.value == states[m].flight.value.owner
    ensures states[n].spool.Some? && stamp in Stamps(states[n].spool.value.entries) ==>
              states[n].spool.value.owner == states[m].flight.value.owner
  {
    RunInv(states, ops, n);
    RunInv(states, ops, m);
    HeldForEver(states, ops, n, m);
  }

  // ---------------------------------------------------------------- the queue as the client runs it

  class AppLog {
    var queue: seq<Entry>
    var owner: Option<string>
    var restored: bool
    var spool: Option<Spool>
    var flight: Option<Flight>
    ghost var clock: nat
    ghost var held: map<nat, string>

    constructor ()
      ensures Now() == State([], None, false, None, None, 0, map[])
    {
      queue, owner, restored, spool, flight, clock, held := [], None, false, None, None, 0, map[];
    }

    ghost function Now(): State
      reads this
    {
      State(queue, owner, restored, spool, flight, clock, held)
    }

    method OnEvent(e: Entry, locked: bool)
      requires OrderInv(Now()) && e.stamp == clock
      modifies this
      ensures Now() == Step(old(Now()), Log(e.id, locked))
    {
      if locked {
        if |queue| >= QUEUE_SIZE {
          queue := queue[1..];
        }
        queue := queue + [e];
        assert queue == Pushed(old(queue), e);
        if owner.Some? { held := held[e.stamp := owner.value]; }
      }
      clock := clock + 1;
    }

    method PanicHook(e: Entry, locked: bool, saved: bool)
      requires OrderInv(Now()) && e.stamp == clock
      modifies this
      ensures Now() == Step(old(Now()), Panic(e.id, locked, saved))
    {
      if locked && owner.Some? {
        queue := queue + [e];
        Trim();
        if saved {
          spool := Some(Spool(owner.value, queue));
        }
        held := held[e.stamp := owner.value];
      }
      clock := clock + 1;
    }

    /** Pops from the front until the queue fits. */
    method Trim()
      modifies this`queue
      ensures queue == Last(old(queue), QUEUE_SIZE)
    {
      while |queue| > QUEUE_SIZE
        invariant |queue| <= |old(queue)| && queue == old(queue)[|old(queue)| - |queue|..]
        invariant |queue| >= QUEUE_SIZE || queue == old(queue)
      {
        queue := queue[1..];
      }
    }

    /** Pushes the newest saved entries in front, newest first. */
    method Restore(entries: seq<Entry>)
      modifies this`queue
      ensures queue == Last(entries, QUEUE_SIZE) + old(queue)
    {
      var taken := 0;
      while taken < |entries| && taken < QUEUE_SIZE
        invariant 0 <= taken <= |entries| && taken <= QUEUE_SIZE
        invariant queue == entries[|entries| - taken..] + old(queue)
      {
        var entry := entries[|entries| - 1 - taken];
        queue := [entry] + queue;
        taken := taken + 1;
        assert [entry] + entries[|entries| - taken + 1..] == entries[|entries| - taken..];
      }
    }

    /** One round of the uploader up to the send. */
    method CollectBatch(next: string, readable: bool, saved: bool)
      requires OrderInv(Now()) && flight.None?
      modifies this
      ensures Now() == Step(old(Now()), Collect(next, readable, saved))
    {
      ghost var before := Now();
      if owner.Some? && owner.value != next {
        queue := [];
      }
      ghost var live := queue;
      if !restored {
        restored := true;
        if readable && spool.Some? && spool.value.owner == next {
          Restore(spool.value.entries);
        }
      }
      owner := Some(next);
      Trim();
      assert queue == Refilled(before, next, readable);
      if saved && queue != [] {
        spool := Some(Spool(next, queue));
      }
      held := held + HeldBy(queue, next);
      flight := Pending(next, queue);
    }

    /** Drops what was sent, wherever it now is in the queue. */
    method Retain(batch: seq<Entry>)
      modifies this`queue
      ensures queue == Kept(old(queue), Ids(batch))
    {
      var ids := Ids(batch);
      var kept, i := [], 0;
      while i < |queue|
        invariant 0 <= i <= |queue| && kept == Kept(queue[..i], ids)
      {
        assert queue[..i+1][..i] == queue[..i];
        if queue[i].id !in ids {
          kept := kept + [queue[i]];
        }
        i := i + 1;
      }
      assert queue[..i] == queue;
      queue := kept;
    }

    method Finish(success: bool, saved: bool)
      requires OrderInv(Now()) && flight.Some?
      modifies this
      ensures Now() == Step(old(Now()), if success then Uploaded(saved) else UploadFailed)
    {
      if success {
        Retain(flight.value.batch);
        if saved {
          spool := Some(Spool(flight.value.owner, queue));
        }
      }
      flight := None;
    }
  }
}
