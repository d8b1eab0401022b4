/**
  The per-kiosk lock around power changes, as interleaved steps.

  An outermost call makes a ticket whose predecessor is whatever the kiosk's map entry names; it enters
  when the predecessor has been released, and on release removes the entry if the entry is still its own.
  A call made inside work that already holds the kiosk runs at once and makes no ticket; that nested work is on
  record too, with the ticket it holds the kiosk through.
*/
module PowerLock {
  import opened Common

  datatype Status = Waiting | Running | Released

  /** `within` is the ticket whose work made the call; its async context carries the kiosks it holds. */
  datatype Ticket = Ticket(kiosk: string, previous: Option<nat>, within: Option<nat>, status: Status)

  /** Work that was started without a ticket of its own, in a context that holds the kiosk through `ticket`. */
  datatype Work = Work(kiosk: string, ticket: nat, running: bool)

  datatype State = State(mutations: map<string, nat>, tickets: seq<Ticket>, nested: seq<Work>)

  /** Kiosks held in the async context of a ticket's work: its own, and those of the work it was called from. */
  ghost function Held(tickets: seq<Ticket>, context: Option<nat>): set<string>
    decreases if context.Some? then context.value + 1 else 0
  {
    if context.None? || context.value >= |tickets| then {}
    else var t := tickets[context.value];
         {t.kiosk} + if t.within.Some? && t.within.value < context.value then Held(tickets, t.within) else {}
  }

  /** The ticket through which a context holds a kiosk. */
  ghost function Holder(tickets: seq<Ticket>, context: nat, kiosk: string): (h: nat)
    requires kiosk in Held(tickets, Some(context))
    ensures h <= context < |tickets| && tickets[h].kiosk == kiosk
    decreases context
  {
    if tickets[context].kiosk == kiosk then context else Holder(tickets, tickets[context].within.value, kiosk)
  }

  datatype Event = Call(kiosk: string, context: Option<nat>) | Enter(ticket: nat) | Exit(ticket: nat) | End(work: nat)

  ghost predicate Enabled(s: State, e: Event) {
    match e
    case Call(_, context) => context.Some? ==> context.value < |s.tickets| && s.tickets[context.value].status != Waiting
    case Enter(t) =>
      && t < |s.tickets| && s.tickets[t].status == Waiting
      && (s.tickets[t].previous.Some? ==>
            s.tickets[t].previous.value < |s.tickets| && s.tickets[s.tickets[t].previous.value].status == Released)
    case Exit(t) => t < |s.tickets| && s.tickets[t].status == Running
    case End(j) => j < |s.nested| && s.nested[j].running
  }

  function Moved(s: State, t: nat, status: Status): State
    requires t < |s.tickets|
  {
    s.(tickets := s.tickets[t := s.tickets[t].(status := status)])
  }

  ghost function Step(s: State, e: Event): State
    requires Enabled(s, e)
  {
    match e
    case Call(kiosk, context) =>
      if kiosk in Held(s.tickets, context)
      then s.(nested := s.nested + [Work(kiosk, Holder(s.tickets, context.value, kiosk), true)])
      else
        var previous := if kiosk in s.mutations then Some(s.mutations[kiosk]) else None;
        s.(mutations := s.mutations[kiosk := |s.tickets|],
           tickets := s.tickets + [Ticket(kiosk, previous, context, Waiting)])
    case Enter(t) => Moved(s, t, Running)
    case Exit(t) =>
      var kiosk := s.tickets[t].kiosk;
      var s' := Moved(s, t, Released);
      if kiosk in s.mutations && s.mutations[kiosk] == t then s'.(mutations := s.mutations - {kiosk}) else s'
    case End(j) => s.(nested := s.nested[j := s.nested[j].(running := false)])
  }

  ghost predicate IsRun(states: seq<State>, events: seq<Event>) {
    && |states| == |events| + 1 && states[0] == State(map[], [], [])
    && forall i | 0 <= i < |events| :: Happens(states, events, i)
  }

  ghost predicate Happens(states: seq<State>, events: seq<Event>, i: int)
    requires 0 <= i < |events| < |states|
  {
    Enabled(states[i], events[i]) && states[i+1] == Step(states[i], events[i])
  }

  // ---------------------------------------------------------------- the invariant

  ghost predicate Live(s: State, t: int)
    requires 0 <= t < |s.tickets|
  {
    s.tickets[t].status != Released
  }

  ghost predicate SameKiosk(s: State, t: int, u: int)
    requires 0 <= t < |s.tickets| && 0 <= u < |s.tickets|
  {
    s.tickets[t].kiosk == s.tickets[u].kiosk
  }

  /** A predecessor is the newest earlier ticket of the kiosk; without one, everything earlier is released. */
  ghost predicate Linked(s: State, t: int)
    requires 0 <= t < |s.tickets|
  {
    match s.tickets[t].previous
    case None => forall u | 0 <= u < t && SameKiosk(s, u, t) :: !Live(s, u)
    case Some(p) => && p < t && SameKiosk(s, p, t)
                    && forall u | p < u < t :: !SameKiosk(s, u, t)
  }

  /** Tickets of a kiosk are served in order: nothing earlier is live once one runs or is released. */
  ghost predicate Served(s: State, t: int)
    requires 0 <= t < |s.tickets|
  {
    s.tickets[t].status != Waiting ==> forall u | 0 <= u < t && SameKiosk(s, u, t) :: !Live(s, u)
  }

  /** The map names a kiosk's newest ticket exactly while that ticket is live. */
  ghost predicate Mapped(s: State, t: int)
    requires 0 <= t < |s.tickets|
  {
    Live(s, t) ==>
      && s.tickets[t].kiosk in s.mutations && t <= s.mutations[s.tickets[t].kiosk]
  }

  ghost predicate Inv(s: State) {
    && (forall t | 0 <= t < |s.tickets| :: Linked(s, t) && Served(s, t) && Mapped(s, t))
    && (forall k | k in s.mutations ::
          && s.mutations[k] < |s.tickets| && s.tickets[s.mutations[k]].kiosk == k && Live(s, s.mutations[k])
          && forall u | s.mutations[k] < u < |s.tickets| :: s.tickets[u].kiosk != k)
  }

  /** Nested work comes and goes without touching tickets or map. */
  lemma SameTickets(s: State, s': State)
    requires Inv(s) && s'.tickets == s.tickets && s'.mutations == s.mutations
    ensures Inv(s')
  {
    forall t | 0 <= t < |s'.tickets| ensures Linked(s', t) && Served(s', t) && Mapped(s', t) {
      assert Linked(s, t) && Served(s, t) && Mapped(s, t);
      assert forall u | 0 <= u <= t :: SameKiosk(s', u, t) == SameKiosk(s, u, t) && Live(s', u) == Live(s, u);
    }
    assert forall k | k in s.mutations :: Live(s', s.mutations[k]) == Live(s, s.mutations[k]);
  }

  lemma CallInv(s: State, e: Event)
    requires Inv(s) && e.Call? && Enabled(s, e)
    ensures Inv(Step(s, e))
  {
    var s' := Step(s, e);
    if e.kiosk in Held(s.tickets, e.context) {
      SameTickets(s, s');
    } else {
      forall t | 0 <= t < |s'.tickets| ensures Linked(s', t) && Served(s', t) && Mapped(s', t) {
        if t < |s.tickets| {
          assert Linked(s, t) && Served(s, t) && Mapped(s, t);
          assert forall u | 0 <= u <= t :: SameKiosk(s', u, t) == SameKiosk(s, u, t) && Live(s', u) == Live(s, u);
        } else if e.kiosk !in s.mutations {
          forall u | 0 <= u < t && SameKiosk(s', u, t) ensures !Live(s', u) {
            assert Mapped(s, u);
          }
        }
      }
    }
  }

  /** A link survives any step that keeps kiosks and links and brings nothing back to life. */
  lemma SameLink(s: State, s': State, v: nat)
    requires v < |s.tickets| == |s'.tickets| && Linked(s, v)
    requires forall u | 0 <= u < |s.tickets| ::
               && s'.tickets[u].kiosk == s.tickets[u].kiosk && s'.tickets[u].previous == s.tickets[u].previous
               && (Live(s', u) ==> Live(s, u))
    ensures Linked(s', v)
  {
    assert forall u | 0 <= u < |s.tickets| :: SameKiosk(s', u, v) == SameKiosk(s, u, v);
  }

  lemma EarlierReleased(s: State, t: nat, u: nat)
    requires Inv(s) && Enabled(s, Enter(t)) && u < t && SameKiosk(s, u, t)
    ensures !Live(s, u)
  {
    assert Linked(s, t);
    if s.tickets[t].previous.Some? {
      var p := s.tickets[t].previous.value;
      assert Served(s, p);
      assert u <= p;
    }
  }

  lemma EnterInv(s: State, t: nat)
    requires Inv(s) && Enabled(s, Enter(t))
    ensures Inv(Step(s, Enter(t)))
  {
    var s' := Step(s, Enter(t));
    forall v | 0 <= v < |s'.tickets| ensures Linked(s', v) && Served(s', v) && Mapped(s', v) {
      SameLink(s, s', v);
      assert Served(s, v) && Mapped(s, v);
      forall u | 0 <= u < v && SameKiosk(s', u, v) && s'.tickets[v].status != Waiting ensures !Live(s', u) {
        assert SameKiosk(s, u, v);
        if v == t { EarlierReleased(s, t, u); }
      }
    }
  }

  lemma ExitKeepsTicket(s: State, t: nat, v: nat)
    requires Inv(s) && Enabled(s, Exit(t)) && v < |s.tickets|
    ensures var s' := Step(s, Exit(t)); Linked(s', v) && Served(s', v) && Mapped(s', v)
  {
    var s' := Step(s, Exit(t));
    SameLink(s, s', v);
    assert Served(s, t) && Served(s, v) && Mapped(s, v);
    assert SameKiosk(s, v, t) && v < t ==> !Live(s, v);
    forall u | 0 <= u < v && SameKiosk(s', u, v) && s'.tickets[v].status != Waiting ensures !Live(s', u) {
      assert SameKiosk(s, u, v);
    }
  }

  lemma ExitInv(s: State, t: nat)
    requires Inv(s) && Enabled(s, Exit(t))
    ensures Inv(Step(s, Exit(t)))
  {
    forall v | 0 <= v < |s.tickets|
      ensures var s' := Step(s, Exit(t)); Linked(s', v) && Served(s', v) && Mapped(s', v)
    {
      ExitKeepsTicket(s, t, v);
    }
  }

  lemma StepInv(s: State, e: Event)
    requires Inv(s) && Enabled(s, e)
    ensures Inv(Step(s, e))
  {
    match e
    case Call(_, _) => CallInv(s, e);
    case Enter(t) => EnterInv(s, t);
    case Exit(t) => ExitInv(s, t);
    case End(_) => SameTickets(s, Step(s, e));
  }

  lemma {:induction false} RunInv(states: seq<State>, events: seq<Event>, i: nat)
    requires IsRun(states, events) && i <= |events|
    ensures Inv(states[i])
  {
    if i > 0 {
      RunInv(states, events, i - 1);
      assert Happens(states, events, i - 1);
      StepInv(states[i-1], events[i-1]);
    }
  }

  // ---------------------------------------------------------------- what the lock guarantees

  lemma OneRuns(s: State, t: nat, u: nat)
    requires Inv(s) && t < |s.tickets| && u < |s.tickets| && SameKiosk(s, t, u)
    requires s.tickets[t].status == Running && s.tickets[u].status == Running
    ensures t == u
  {
    assert Served(s, t) && Served(s, u);
    assert SameKiosk(s, u, t) && Live(s, t) && Live(s, u);
  }

  /** At most one outermost holder per kiosk. */
  lemma MutualExclusion(states: seq<State>, events: seq<Event>, i: nat, t: nat, u: nat)
    requires IsRun(states, events) && i <= |events|
    requires t < |states[i].tickets| && u < |states[i].tickets| && SameKiosk(states[i], t, u)
    requires states[i].tickets[t].status == Running && states[i].tickets[u].status == Running
    ensures t == u
  {
    RunInv(states, events, i);
    OneRuns(states[i], t, u);
  }

  /** Holders enter in call order: when one enters, every earlier caller of the kiosk has left. */
  lemma EntryInCallOrder(states: seq<State>, events: seq<Event>, i: nat, t: nat, u: nat)
    requires IsRun(states, events) && i < |events| && events[i] == Enter(t)
    requires u < t < |states[i].tickets| && SameKiosk(states[i], u, t)
    ensures states[i].tickets[u].status == Released
  {
    RunInv(states, events, i + 1);
    assert Happens(states, events, i);
    assert Served(states[i+1], t) && SameKiosk(states[i+1], u, t);
  }

  /** The kiosk's map entry exists exactly while some call of it is unfinished. */
  lemma EntryGoneWhenDrained(states: seq<State>, events: seq<Event>, i: nat, kiosk: string)
    requires IsRun(states, events) && i <= |events|
    ensures kiosk in states[i].mutations <==>
              exists t :: 0 <= t < |states[i].tickets| && states[i].tickets[t].kiosk == kiosk && Live(states[i], t)
  {
    RunInv(states, events, i);
    var s := states[i];
    if t :| 0 <= t < |s.tickets| && s.tickets[t].kiosk == kiosk && Live(s, t) {
      assert Mapped(s, t);
    }
  }

  /** No kiosk is stuck: if nobody holds it, its oldest waiting call can enter now. */
  lemma OldestWaiterCanEnter(states: seq<State>, events: seq<Event>, i: nat, t: nat)
    requires IsRun(states, events) && i <= |events| && t < |states[i].tickets|
    requires states[i].tickets[t].status == Waiting
    requires forall u | 0 <= u < t && SameKiosk(states[i], u, t) :: !Live(states[i], u)
    ensures Enabled(states[i], Enter(t))
  {
    RunInv(states, events, i);
    assert Linked(states[i], t);
  }

  // ---------------------------------------------------------------- nested work

  /** Whoever made a call had been let in before. */
  ghost predicate Nested(s: State, t: int)
    requires 0 <= t < |s.tickets|
  {
    s.tickets[t].within.Some? ==>
      s.tickets[t].within.value < t && s.tickets[s.tickets[t].within.value].status != Waiting
  }

  /** Nested work holds its kiosk through a ticket of the kiosk that has been let in, and may have been released. */
  ghost predicate Through(s: State, j: int)
    requires 0 <= j < |s.nested|
  {
    && s.nested[j].ticket < |s.tickets| && s.tickets[s.nested[j].ticket].kiosk == s.nested[j].kiosk
    && s.tickets[s.nested[j].ticket].status != Waiting
  }

  ghost predicate Nesting(s: State) {
    (forall t | 0 <= t < |s.tickets| :: Nested(s, t)) && forall j | 0 <= j < |s.nested| :: Through(s, j)
  }

  lemma {:induction false} HolderEntered(s: State, context: nat, kiosk: string)
    requires Nesting(s) && context < |s.tickets| && s.tickets[context].status != Waiting
    requires kiosk in Held(s.tickets, Some(context))
    ensures s.tickets[Holder(s.tickets, context, kiosk)].status != Waiting
    decreases context
  {
    assert Nested(s, context);
    var t := s.tickets[context];
    if t.kiosk != kiosk { HolderEntered(s, t.within.value, kiosk); }
  }

  lemma NestingStep(s: State, e: Event)
    requires Nesting(s) && Enabled(s, e)
    ensures Nesting(Step(s, e))
  {
    var s' := Step(s, e);
    if e.Call? && e.kiosk in Held(s.tickets, e.context) { HolderEntered(s, e.context.value, e.kiosk); }
    forall t | 0 <= t < |s'.tickets| ensures Nested(s', t) {
      if t < |s.tickets| { assert Nested(s, t); }
    }
    forall j | 0 <= j < |s'.nested| ensures Through(s', j) {
      if j < |s.nested| { assert Through(s, j); }
    }
  }

  lemma {:induction false} RunNesting(states: seq<State>, events: seq<Event>, i: nat)
    requires IsRun(states, events) && i <= |events|
    ensures Nesting(states[i])
  {
    if i > 0 {
      RunNesting(states, events, i - 1);
      assert Happens(states, events, i - 1);
      NestingStep(states[i-1], events[i-1]);
    }
  }

  /** A call for any kiosk its context carries makes no ticket, so it does not wait: its work runs at once. */
  lemma NestedCallsDoNotWait(states: seq<State>, events: seq<Event>, i: nat, context: nat, kiosk: string)
    requires IsRun(states, events) && i <= |events| && context < |states[i].tickets|
    requires states[i].tickets[context].status != Waiting && kiosk in Held(states[i].tickets, Some(context))
    ensures Enabled(states[i], Call(kiosk, Some(context)))
    ensures var s, h := states[i], Holder(states[i].tickets, context, kiosk);
            && h <= context && s.tickets[h].kiosk == kiosk && s.tickets[h].status in {Running, Released}
            && Step(s, Call(kiosk, Some(context))) == s.(nested := s.nested + [Work(kiosk, h, true)])
  {
    RunNesting(states, events, i);
    HolderEntered(states[i], context, kiosk);
  }

  /** Nested work number j runs on the kiosk, through ticket t. */
  ghost predicate RunsThrough(s: State, kiosk: string, j: int, t: nat) {
    0 <= j < |s.nested| && s.nested[j] == Work(kiosk, t, true)
  }

  /** Some work on the kiosk runs that belongs to ticket t: its own or nested work. */
  ghost predicate Works(s: State, kiosk: string, t: nat) {
    || (t < |s.tickets| && s.tickets[t].kiosk == kiosk && s.tickets[t].status == Running)
    || exists j :: RunsThrough(s, kiosk, j, t)
  }

  ghost predicate IsReleased(s: State, t: nat) {
    t < |s.tickets| && s.tickets[t].status == Released
  }

  /** Nested work on the kiosk runs though the ticket it belongs to is released. */
  ghost predicate Detached(s: State, kiosk: string) {
    exists j, t: nat :: RunsThrough(s, kiosk, j, t) && IsReleased(s, t)
  }

  /** All work on the kiosk belongs to one ticket. */
  ghost predicate Exclusive(s: State, kiosk: string) {
    forall t: nat, u: nat | Works(s, kiosk, t) && Works(s, kiosk, u) :: t == u
  }

  lemma WorkNotReleased(s: State, kiosk: string, t: nat)
    requires Nesting(s) && Works(s, kiosk, t) && !IsReleased(s, t)
    ensures t < |s.tickets| && s.tickets[t].kiosk == kiosk && s.tickets[t].status == Running
  {
    if j :| RunsThrough(s, kiosk, j, t) { assert Through(s, j); }
  }

  /** In a sound state, work of two tickets on one kiosk means nested work of a released one of them. */
  lemma OverlapIsDetached(s: State, kiosk: string, t: nat, u: nat)
    requires Inv(s) && Nesting(s) && Works(s, kiosk, t) && Works(s, kiosk, u) && t != u
    ensures exists j, v: nat :: RunsThrough(s, kiosk, j, v) && IsReleased(s, v) && v in {t, u}
  {
    if !IsReleased(s, t) && !IsReleased(s, u) {
      WorkNotReleased(s, kiosk, t);
      WorkNotReleased(s, kiosk, u);
      OneRuns(s, t, u);
    } else {
      var v := if IsReleased(s, t) then t else u;
      assert exists j :: RunsThrough(s, kiosk, j, v);
    }
  }

  /** Pieces of work of different tickets on one kiosk run together only if one is nested in a released ticket. */
  lemma OverlapNeedsReleasedTicket(states: seq<State>, events: seq<Event>, i: nat, kiosk: string, t: nat, u: nat)
    requires IsRun(states, events) && i <= |events| && t != u
    requires Works(states[i], kiosk, t) && Works(states[i], kiosk, u)
    ensures exists j, v: nat :: RunsThrough(states[i], kiosk, j, v) && IsReleased(states[i], v) && v in {t, u}
  {
    RunInv(states, events, i);
    RunNesting(states, events, i);
    OverlapIsDetached(states[i], kiosk, t, u);
  }

  /** No ticket is released under nested work, and none of it is started under a released ticket. */
  ghost predicate Awaits(s: State, e: Event)
    requires Enabled(s, e)
  {
    match e
    case Exit(t) => forall j | 0 <= j < |s.nested| :: s.nested[j].running ==> s.nested[j].ticket != t
    case Call(kiosk, Some(c)) =>
      kiosk in Held(s.tickets, Some(c)) ==> s.tickets[Holder(s.tickets, c, kiosk)].status == Running
    case _ => true
  }

  /** A way to go on from s in which every ticket awaits the work nested in it. */
  ghost predicate AwaitedPath(s: State, path: seq<State>, events: seq<Event>) {
    && |path| == |events| + 1 && path[0] == s
    && forall i | 0 <= i < |events| :: HappensAwaited(path, events, i)
  }

  ghost predicate HappensAwaited(path: seq<State>, events: seq<Event>, i: int)
    requires 0 <= i < |events| < |path|
  {
    Happens(path, events, i) && Awaits(path[i], events[i])
  }

  lemma AwaitedStep(s: State, e: Event, kiosk: string)
    requires Enabled(s, e) && Awaits(s, e) && Nesting(s) && !Detached(s, kiosk)
    ensures !Detached(Step(s, e), kiosk)
  {
    var s' := Step(s, e);
    forall j, t: nat | RunsThrough(s', kiosk, j, t)
      ensures !IsReleased(s', t)
    {
      if j < |s.nested| {
        assert RunsThrough(s, kiosk, j, t) && Through(s, j);
        assert !IsReleased(s, t);
      }
    }
  }

  lemma {:induction false} AwaitedStaysAttached(s: State, path: seq<State>, events: seq<Event>, kiosk: string, n: nat)
    requires Inv(s) && Nesting(s) && !Detached(s, kiosk) && AwaitedPath(s, path, events) && n <= |events|
    ensures Inv(path[n]) && Nesting(path[n]) && !Detached(path[n], kiosk)
  {
    if n > 0 {
      AwaitedStaysAttached(s, path, events, kiosk, n - 1);
      assert HappensAwaited(path, events, n - 1);
      StepInv(path[n-1], events[n-1]);
      NestingStep(path[n-1], events[n-1]);
      AwaitedStep(path[n-1], events[n-1], kiosk);
    }
  }

  lemma AttachedIsExclusive(s: State, kiosk: string)
    requires Inv(s) && Nesting(s) && !Detached(s, kiosk)
    ensures Exclusive(s, kiosk)
  {
    forall t: nat, u: nat | Works(s, kiosk, t) && Works(s, kiosk, u)
      ensures t == u
    {
      if t != u { OverlapIsDetached(s, kiosk, t, u); }
    }
  }

  lemma {:induction false} OldestLive(s: State, kiosk: string, t: nat) returns (u: nat)
    requires t < |s.tickets| && s.tickets[t].kiosk == kiosk && Live(s, t)
    ensures u <= t && s.tickets[u].kiosk == kiosk && Live(s, u)
    ensures forall v | 0 <= v < u && SameKiosk(s, v, u) :: !Live(s, v)
    decreases t
  {
    if v: nat :| v < t && SameKiosk(s, v, t) && Live(s, v) {
      u := OldestLive(s, kiosk, v);
    } else {
      u := t;
    }
  }

  /** From any state at most two steps, starting no nested work and releasing nothing, let a ticket of the kiosk run. */
  lemma SomeTicketCanRun(s: State, kiosk: string) returns (path: seq<State>, events: seq<Event>, u: nat)
    requires Inv(s)
    ensures AwaitedPath(s, path, events)
    ensures var last := path[|events|];
            && u < |last.tickets| && last.tickets[u].kiosk == kiosk && last.tickets[u].status == Running
            && last.nested == s.nested && forall t: nat | IsReleased(s, t) :: IsReleased(last, t)
    ensures forall i | 0 <= i < |events| :: !events[i].Exit?
  {
    if t: nat :| t < |s.tickets| && s.tickets[t].kiosk == kiosk && s.tickets[t].status == Running {
      return [s], [], t;
    }
    if kiosk in s.mutations {
      u := OldestLive(s, kiosk, s.mutations[kiosk]);
      assert Linked(s, u);
      path, events := [s, Step(s, Enter(u))], [Enter(u)];
      assert HappensAwaited(path, events, 0);
    } else {
      u := |s.tickets|;
      var called := Step(s, Call(kiosk, None));
      path, events := [s, called, Step(called, Enter(u))], [Call(kiosk, None), Enter(u)];
      assert HappensAwaited(path, events, 0) && HappensAwaited(path, events, 1);
    }
  }

  /**
    All work on a kiosk belongs to one ticket, now and however things go on as long as tickets await the work nested in
    them, exactly when no nested work on it runs whose ticket has been released.
  */
  lemma NestedWorkExclusiveIff(states: seq<State>, events: seq<Event>, i: nat, kiosk: string)
    requires IsRun(states, events) && i <= |events|
    ensures !Detached(states[i], kiosk) <==>
              forall path, more | AwaitedPath(states[i], path, more) :: Exclusive(path[|more|], kiosk)
  {
    RunInv(states, events, i);
    RunNesting(states, events, i);
    var s := states[i];
    if !Detached(s, kiosk) {
      forall path, more | AwaitedPath(s, path, more)
        ensures Exclusive(path[|more|], kiosk)
      {
        AwaitedStaysAttached(s, path, more, kiosk, |more|);
        AttachedIsExclusive(path[|more|], kiosk);
      }
    } else {
      var path, more, u := SomeTicketCanRun(s, kiosk);
      var j, t: nat :| RunsThrough(s, kiosk, j, t) && IsReleased(s, t);
      assert RunsThrough(path[|more|], kiosk, j, t) && IsReleased(path[|more|], t);
      assert Works(path[|more|], kiosk, t) && Works(path[|more|], kiosk, u) && t != u;
    }
  }

  /** The path goes on from s, ticket h is not released on it, and it ends with another ticket of the kiosk running. */
  ghost predicate LetsIn(s: State, h: nat, kiosk: string, path: seq<State>, events: seq<Event>, u: nat) {
    && |path| == |events| + 1 && path[0] == s
    && (forall i | 0 <= i < |events| :: Happens(path, events, i) && events[i] != Exit(h))
    && u != h && u < |path[|events|].tickets|
    && path[|events|].tickets[u].kiosk == kiosk && path[|events|].tickets[u].status == Running
  }

  lemma {:induction false} PathKeepsHolder(s: State, h: nat, path: seq<State>, events: seq<Event>, n: nat)
    requires Inv(s) && h < |s.tickets| && s.tickets[h].status == Running
    requires |path| == |events| + 1 && path[0] == s && n <= |events|
    requires forall i | 0 <= i < |events| :: Happens(path, events, i) && events[i] != Exit(h)
    ensures Inv(path[n]) && h < |path[n].tickets| && path[n].tickets[h] == s.tickets[h]
  {
    if n > 0 {
      PathKeepsHolder(s, h, path, events, n - 1);
      assert Happens(path, events, n - 1);
      StepInv(path[n-1], events[n-1]);
    }
  }

  /**
    Whatever nested work does: the ticket a context holds a kiosk by keeps other tickets of the kiosk out exactly while
    it is running, short of its release.
  */
  lemma HolderKeepsTicketsOutIff(states: seq<State>, events: seq<Event>, i: nat, context: nat, kiosk: string)
    requires IsRun(states, events) && i <= |events| && context < |states[i].tickets|
    requires states[i].tickets[context].status != Waiting && kiosk in Held(states[i].tickets, Some(context))
    ensures var s, h := states[i], Holder(states[i].tickets, context, kiosk);
            s.tickets[h].status == Running <==> !exists path, more, u: nat :: LetsIn(s, h, kiosk, path, more, u)
  {
    RunInv(states, events, i);
    RunNesting(states, events, i);
    HolderEntered(states[i], context, kiosk);
    var s, h := states[i], Holder(states[i].tickets, context, kiosk);
    if s.tickets[h].status == Running {
      forall path, more, u: nat | LetsIn(s, h, kiosk, path, more, u)
        ensures false
      {
        PathKeepsHolder(s, h, path, more, |more|);
        OneRuns(path[|more|], h, u);
      }
    } else {
      var path, more, u := SomeTicketCanRun(s, kiosk);
      assert IsReleased(s, h);
      forall k | 0 <= k < |more| ensures Happens(path, more, k) { assert HappensAwaited(path, more, k); }
      assert LetsIn(s, h, kiosk, path, more, u);
    }
  }

  ghost predicate OverlapsThroughBoth(s: State) {
    && |s.tickets| == 2 && s.tickets[0].status == Released && s.tickets[1].status == Running
    && s.nested == [Work("k", 0, true), Work("k", 1, true)]
    && Detached(s, "k") && !Exclusive(s, "k")
  }

  lemma BothTicketsDone() returns (states: seq<State>, events: seq<Event>)
    ensures IsRun(states, events) && |events| == 5 && states[5].nested == []
    ensures states[5].tickets == [Ticket("k", None, None, Released), Ticket("k", Some(0), None, Running)]
  {
    events := [Call("k", None), Call("k", None), Enter(0), Exit(0), Enter(1)];
    var s0 := State(map[], [], []);
    var s1 := Step(s0, events[0]);
    var s2 := Step(s1, events[1]);
    var s3 := Step(s2, events[2]);
    var s4 := Step(s3, events[3]);
    states := [s0, s1, s2, s3, s4, Step(s4, events[4])];
    assert forall i | 0 <= i < 5 :: Happens(states, events, i);
  }

  /**
    A run that gets there: two calls, the first one's entry and exit, the second one's entry, and then a nested call
    from each one's context. The first context's work skips the queue and runs beside the second ticket and its work.
  */
  lemma DetachedNestedCallOverlaps()
    ensures exists states, events :: IsRun(states, events) && |events| == 7 && OverlapsThroughBoth(states[7])
  {
    var before, done := BothTicketsDone();
    var s5 := before[5];
    assert Held(s5.tickets, Some(0)) == {"k"} == Held(s5.tickets, Some(1));
    var s6 := Step(s5, Call("k", Some(0)));
    var s7 := Step(s6, Call("k", Some(1)));
    var states, events := before + [s6, s7], done + [Call("k", Some(0)), Call("k", Some(1))];
    forall i | 0 <= i < 7 ensures Happens(states, events, i) {
      if i < 5 { assert Happens(before, done, i); }
    }
    assert RunsThrough(s7, "k", 0, 0) && RunsThrough(s7, "k", 1, 1) && IsReleased(s7, 0);
    assert !Exclusive(s7, "k") by { assert Works(s7, "k", 0) && Works(s7, "k", 1); }
    assert IsRun(states, events) && OverlapsThroughBoth(states[7]);
  }

  // ---------------------------------------------------------------- the lock itself

  class PowerStateLock {
    var mutations: map<string, nat>
    var tickets: seq<Ticket>
    ghost var nested: seq<Work>

    ghost function Now(): State
      reads this
    {
      State(mutations, tickets, nested)
    }

    ghost predicate Valid()
      reads this
    {
      Inv(Now())
    }

    constructor ()
      ensures Valid() && Now() == State(map[], [], [])
    {
      mutations, tickets, nested := map[], [], [];
    }

    /** The synchronous part of a call; `held` is the async context's set of kiosks. */
    method Request(kiosk: string, context: Option<nat>, held: set<string>) returns (ticket: Option<nat>)
      requires Valid() && Enabled(Now(), Call(kiosk, context)) && held == Held(tickets, context)
      modifies this
      ensures Valid() && Now() == Step(old(Now()), Call(kiosk, context))
      ensures ticket == if kiosk in held then None else Some(|old(tickets)|)
    {
      StepInv(Now(), Call(kiosk, context));
      if kiosk in held {
        nested := nested + [Work(kiosk, Holder(tickets, context.value, kiosk), true)];
        return None;
      }
      var previous := if kiosk in mutations then Some(mutations[kiosk]) else None;
      ticket := Some(|tickets|);
      mutations := mutations[kiosk := |tickets|];
      tickets := tickets + [Ticket(kiosk, previous, context, Waiting)];
    }

    /** The predecessor's promise resolved: the work starts. */
    method Resume(t: nat)
      requires Valid() && Enabled(Now(), Enter(t))
      modifies this
      ensures Valid() && Now() == Step(old(Now()), Enter(t))
    {
      StepInv(Now(), Enter(t));
      tickets := tickets[t := tickets[t].(status := Running)];
    }

    /** The work ended, normally or not. */
    method Release(t: nat)
      requires Valid() && Enabled(Now(), Exit(t))
      modifies this
      ensures Valid() && Now() == Step(old(Now()), Exit(t))
    {
      StepInv(Now(), Exit(t));
      tickets := tickets[t := tickets[t].(status := Released)];
      if tickets[t].kiosk in mutations && mutations[tickets[t].kiosk] == t {
        mutations := mutations - {tickets[t].kiosk};
      }
    }

    /** Nested work ended; the lock takes no notice. */
    ghost method Return(work: nat)
      requires Valid() && Enabled(Now(), End(work))
      modifies this`nested
      ensures Valid() && Now() == Step(old(Now()), End(work))
    {
      StepInv(Now(), End(work));
      nested := nested[work := nested[work].(running := false)];
    }
  }
}
