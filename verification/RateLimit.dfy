/**
  The bounded sliding-window rate limiter.

  `State` is what the limiter stores. `Account` adds the full history of admitted hits per key since
  that key's last reset, which the limiter itself forgets; the theorems compare the two.
*/
module RateLimit {
  import opened Common

  const MAX_SAFE_INTEGER := 9007199254740991

  type Hits = seq<real>

  datatype Config = Config(windowMs: int, max: int, maxBuckets: int, maxEntries: int) {
    predicate Valid() {
      && 0 < windowMs <= MAX_SAFE_INTEGER && 0 < max <= MAX_SAFE_INTEGER
      && 0 < maxBuckets <= MAX_SAFE_INTEGER && 0 < maxEntries <= MAX_SAFE_INTEGER
    }

    function Window(): real { windowMs as real }

    /** How long a global sweep stays good for. */
    function SweepEvery(): real { if windowMs < 1000 then windowMs as real else 1000.0 }
  }

  datatype State = State(buckets: map<string, Hits>, entries: int, nextSweep: real)

  /** The hits later than the cutoff, in order. */
  function Live(hits: Hits, cutoff: real): (live: Hits)
    ensures |live| <= |hits|
  {
    if hits == [] then []
    else if hits[0] > cutoff then [hits[0]] + Live(hits[1..], cutoff)
    else Live(hits[1..], cutoff)
  }

  function Stored(buckets: map<string, Hits>, key: string): Hits {
    if key in buckets then buckets[key] else []
  }

  /** The places of one bucket, and of all of them. */
  ghost function Row(key: string, n: nat): set<(string, int)> {
    set i | 0 <= i < n :: (key, i)
  }

  ghost function Slots(buckets: map<string, Hits>): set<(string, int)> {
    set key, i | key in buckets && 0 <= i < |buckets[key]| :: (key, i)
  }

  /** Number of timestamps stored under all keys together. */
  ghost function Total(buckets: map<string, Hits>): nat {
    |Slots(buckets)|
  }

  lemma {:induction false} RowSize(key: string, n: nat)
    ensures |Row(key, n)| == n
  {
    if n > 0 {
      RowSize(key, n - 1);
      assert Row(key, n) == Row(key, n - 1) + {(key, n - 1)};
    }
  }

  /** Storing `hits` under `key`, or dropping the key when there is nothing to store. */
  function Put(buckets: map<string, Hits>, key: string, hits: Hits): map<string, Hits> {
    if hits == [] then buckets - {key} else buckets[key := hits]
  }

  lemma RowInSlots(buckets: map<string, Hits>, key: string)
    ensures Row(key, |Stored(buckets, key)|) <= Slots(buckets)
    ensures forall place | place in Slots(buckets) && place.0 == key :: place in Row(key, |Stored(buckets, key)|)
  {
  }

  /** Storing under a key exchanges that key's places for as many as there are new hits. */
  lemma SlotsPut(buckets: map<string, Hits>, key: string, hits: Hits, place: (string, int))
    ensures place in Slots(Put(buckets, key, hits)) <==>
              (place in Slots(buckets) && place.0 != key) || place in Row(key, |hits|)
  {
  }

  lemma TotalPut(buckets: map<string, Hits>, key: string, hits: Hits)
    ensures Total(Put(buckets, key, hits)) == Total(buckets) - |Stored(buckets, key)| + |hits|
  {
    var before, after := Row(key, |Stored(buckets, key)|), Row(key, |hits|);
    var kept := Slots(buckets) - before;
    RowInSlots(buckets, key);
    forall place
      ensures place in Slots(Put(buckets, key, hits)) <==> place in kept + after
    {
      SlotsPut(buckets, key, hits, place);
    }
    assert Slots(Put(buckets, key, hits)) == kept + after && kept !! after;
    RowSize(key, |Stored(buckets, key)|);
    RowSize(key, |hits|);
  }

  // ---------------------------------------------------------------- what each call does to the state

  function SweptBuckets(buckets: map<string, Hits>, cutoff: real): map<string, Hits> {
    map key | key in buckets && Live(buckets[key], cutoff) != [] :: Live(buckets[key], cutoff)
  }

  ghost function Swept(c: Config, s: State, now: real): State {
    if now < s.nextSweep then s else
    var buckets := SweptBuckets(s.buckets, now - c.Window());
    State(buckets, s.entries - Total(s.buckets) + Total(buckets), now + c.SweepEvery())
  }

  function Trimmed(c: Config, s: State, key: string, now: real): State {
    var live := Live(Stored(s.buckets, key), now - c.Window());
    s.(buckets := Put(s.buckets, key, live), entries := s.entries - (|Stored(s.buckets, key)| - |live|))
  }

  /** What take and remaining look at: the state after the sweep and the trim of their key. */
  ghost function Ready(c: Config, s: State, key: string, now: real): State {
    Trimmed(c, Swept(c, s, now), key, now)
  }

  predicate Admits(c: Config, ready: State, key: string) {
    var hits := Stored(ready.buckets, key);
    |hits| < c.max && ready.entries < c.maxEntries && (hits != [] || |ready.buckets| < c.maxBuckets)
  }

  function Admitted(ready: State, key: string, now: real): State {
    ready.(buckets := ready.buckets[key := Stored(ready.buckets, key) + [now]], entries := ready.entries + 1)
  }

  ghost function Taken(c: Config, s: State, key: string, now: real): State {
    var ready := Ready(c, s, key, now);
    if Admits(c, ready, key) then Admitted(ready, key, now) else ready
  }

  function Quota(c: Config, ready: State, key: string): int {
    var hits := Stored(ready.buckets, key);
    if hits == [] && |ready.buckets| >= c.maxBuckets then 0
    else if c.max - |hits| <= 0 || c.maxEntries - ready.entries <= 0 then 0
    else if c.max - |hits| < c.maxEntries - ready.entries then c.max - |hits|
    else c.maxEntries - ready.entries
  }

  function Forgotten(s: State, key: string): State {
    s.(buckets := s.buckets - {key}, entries := s.entries - |Stored(s.buckets, key)|)
  }

  // ---------------------------------------------------------------- storage invariants

  ghost predicate Ascending(hits: Hits) {
    forall i, j | 0 <= i <= j < |hits| :: hits[i] <= hits[j]
  }

  /** A stored bucket: within quota, in order, and no hit older than a window plus a sweep interval. */
  ghost predicate Kept(c: Config, nextSweep: real, hits: Hits) {
    0 < |hits| <= c.max && Ascending(hits) && nextSweep - c.SweepEvery() - c.Window() < hits[0]
  }

  /** Storage is accounted for and capped. */
  ghost predicate Counted(c: Config, s: State) {
    s.entries == Total(s.buckets) <= c.maxEntries && |s.buckets| <= c.maxBuckets
  }

  ghost predicate AllKept(c: Config, s: State) {
    forall key | key in s.buckets :: Kept(c, s.nextSweep, s.buckets[key])
  }

  ghost predicate Bounded(c: Config, s: State) {
    Counted(c, s) && AllKept(c, s)
  }

  lemma {:induction false} LiveFrom(hits: Hits, cutoff: real, n: nat)
    requires n <= |hits|
    requires forall i | 0 <= i < n :: hits[i] <= cutoff
    requires forall i | n <= i < |hits| :: hits[i] > cutoff
    ensures Live(hits, cutoff) == hits[n..]
  {
    if hits != [] {
      LiveFrom(hits[1..], cutoff, if n == 0 then 0 else n - 1);
      assert hits == [hits[0]] + hits[1..];
    }
  }

  /** On ascending hits the filter is a suffix: everything expired comes first. */
  lemma {:induction false} LiveSuffix(hits: Hits, cutoff: real) returns (n: nat)
    requires Ascending(hits)
    ensures n <= |hits| && Live(hits, cutoff) == hits[n..]
    ensures forall i | 0 <= i < n :: hits[i] <= cutoff
    ensures forall i | n <= i < |hits| :: hits[i] > cutoff
  {
    n := 0;
    while n < |hits| && hits[n] <= cutoff
      invariant n <= |hits|
      invariant forall i | 0 <= i < n :: hits[i] <= cutoff
    {
      n := n + 1;
    }
    LiveFrom(hits, cutoff, n);
  }

  lemma SweepShrinks(buckets: map<string, Hits>, cutoff: real)
    ensures Total(SweptBuckets(buckets, cutoff)) <= Total(buckets)
    ensures |SweptBuckets(buckets, cutoff)| <= |buckets|
  {
    SubsetSize(SweptBuckets(buckets, cutoff).Keys, buckets.Keys);
    SubsetSize(Slots(SweptBuckets(buckets, cutoff)), Slots(buckets));
  }

  lemma LiveKept(c: Config, nextSweep: real, hits: Hits, now: real)
    requires c.Valid() && Kept(c, nextSweep, hits) && Live(hits, now - c.Window()) != []
    ensures Kept(c, nextSweep, Live(hits, now - c.Window()))
    ensures Kept(c, now + c.SweepEvery(), Live(hits, now - c.Window()))
  {
    var n := LiveSuffix(hits, now - c.Window());
  }

  lemma SweptKept(c: Config, nextSweep: real, buckets: map<string, Hits>, now: real, key: string)
    requires c.Valid() && key in SweptBuckets(buckets, now - c.Window())
    requires Kept(c, nextSweep, buckets[key])
    ensures Kept(c, now + c.SweepEvery(), SweptBuckets(buckets, now - c.Window())[key])
  {
    LiveKept(c, nextSweep, buckets[key], now);
  }

  lemma SweptCounted(c: Config, s: State, now: real)
    requires Counted(c, s)
    ensures Counted(c, Swept(c, s, now))
  {
    SweepShrinks(s.buckets, now - c.Window());
  }

  lemma SweptBounded(c: Config, s: State, now: real)
    requires c.Valid() && Bounded(c, s)
    ensures Bounded(c, Swept(c, s, now)) && now < Swept(c, s, now).nextSweep
  {
    SweptCounted(c, s, now);
    if s.nextSweep <= now {
      var buckets := SweptBuckets(s.buckets, now - c.Window());
      forall key | key in buckets ensures Kept(c, now + c.SweepEvery(), buckets[key]) {
        SweptKept(c, s.nextSweep, s.buckets, now, key);
      }
    }
  }

  lemma PutBounded(c: Config, s: State, key: string, hits: Hits)
    requires Bounded(c, s)
    requires hits != [] ==> Kept(c, s.nextSweep, hits) && (key in s.buckets || |s.buckets| < c.maxBuckets)
    requires s.entries - |Stored(s.buckets, key)| + |hits| <= c.maxEntries
    ensures Bounded(c, s.(buckets := Put(s.buckets, key, hits),
                          entries := s.entries - |Stored(s.buckets, key)| + |hits|))
  {
    var after := s.(buckets := Put(s.buckets, key, hits), entries := s.entries - |Stored(s.buckets, key)| + |hits|);
    assert Counted(c, after) by {
      TotalPut(s.buckets, key, hits);
      if hits == [] {
        SubsetSize(after.buckets.Keys, s.buckets.Keys);
      } else {
        assert after.buckets.Keys == s.buckets.Keys + {key};
      }
    }
    assert AllKept(c, after);
  }

  lemma TrimmedBounded(c: Config, s: State, key: string, now: real)
    requires c.Valid() && Bounded(c, s)
    ensures Bounded(c, Trimmed(c, s, key, now))
  {
    var hits := Stored(s.buckets, key);
    if key in s.buckets && Live(hits, now - c.Window()) != [] {
      LiveKept(c, s.nextSweep, hits, now);
    }
    PutBounded(c, s, key, Live(hits, now - c.Window()));
  }

  lemma AdmittedBounded(c: Config, s: State, key: string, now: real)
    requires c.Valid() && Bounded(c, s) && Admits(c, s, key)
    requires var hits := Stored(s.buckets, key); hits != [] ==> hits[|hits|-1] <= now
    requires s.nextSweep - c.SweepEvery() - c.Window() < now
    ensures Bounded(c, Admitted(s, key, now))
  {
    PutBounded(c, s, key, Stored(s.buckets, key) + [now]);
  }

  // ---------------------------------------------------------------- against the full history

  datatype Call = TakeHit(key: string, now: real) | AskRemaining(key: string, now: real) | ResetKey(key: string)

  datatype Account = Account(state: State, past: map<string, Hits>, latest: real)

  const OPENED := Account(State(map[], 0, 0.0), map[], 0.0)

  ghost predicate InOrder(a: Account, call: Call) {
    call.ResetKey? || a.latest <= call.now
  }

  ghost function Perform(c: Config, a: Account, call: Call): Account {
    match call
    case TakeHit(key, now) =>
      var admitted := Admits(c, Ready(c, a.state, key, now), key);
      Account(Taken(c, a.state, key, now),
              if admitted then a.past[key := Stored(a.past, key) + [now]] else a.past, now)
    case AskRemaining(key, now) => Account(Ready(c, a.state, key, now), a.past, now)
    case ResetKey(key) => Account(Forgotten(a.state, key), a.past - {key}, a.latest)
  }

  ghost predicate IsTraffic(c: Config, calls: seq<Call>, a: seq<Account>) {
    && |a| == |calls| + 1 && a[0] == OPENED
    && forall i | 0 <= i < |calls| :: InOrder(a[i], calls[i]) && a[i+1] == Perform(c, a[i], calls[i])
  }

  /** Any max + 1 successive admissions span at least a window. */
  ghost predicate Spaced(c: Config, past: Hits) {
    forall i, j | 0 <= i < j < |past| && c.max <= j - i :: past[i] + c.Window() <= past[j]
  }

  /** What is stored is the end of the history, and what was dropped had expired. */
  ghost predicate Remembers(c: Config, stored: Hits, past: Hits, latest: real) {
    && Ascending(past) && (forall i | 0 <= i < |past| :: past[i] <= latest)
    && Spaced(c, past)
    && |stored| <= |past| && stored == past[|past| - |stored|..]
    && forall i | 0 <= i < |past| - |stored| :: past[i] <= latest - c.Window()
  }

  ghost predicate Faithful(c: Config, a: Account) {
    && 0.0 <= a.latest && Bounded(c, a.state)
    && a.state.nextSweep <= a.latest + c.SweepEvery()
    && AllRemembered(c, a.state, a.past, a.latest)
  }

  lemma StoredLiveIsPastLive(stored: Hits, past: Hits, expired: real, cutoff: real)
    requires Ascending(past) && |stored| <= |past| && stored == past[|past| - |stored|..]
    requires forall i | 0 <= i < |past| - |stored| :: past[i] <= expired
    requires expired <= cutoff
    ensures Live(stored, cutoff) == Live(past, cutoff)
  {
    var m := LiveSuffix(past, cutoff);
    assert m < |past| ==> cutoff < past[m];
    LiveFrom(stored, cutoff, m - (|past| - |stored|));
  }

  lemma RememberLater(c: Config, stored: Hits, past: Hits, latest: real, now: real)
    requires Remembers(c, stored, past, latest) && latest <= now
    ensures Remembers(c, stored, past, now)
  {
  }

  lemma RememberLive(c: Config, stored: Hits, past: Hits, latest: real, now: real)
    requires c.Valid() && Remembers(c, stored, past, latest) && latest <= now
    ensures Remembers(c, Live(stored, now - c.Window()), past, now)
    ensures Live(stored, now - c.Window()) == Live(past, now - c.Window())
  {
    StoredLiveIsPastLive(stored, past, latest - c.Window(), now - c.Window());
    var m := LiveSuffix(past, now - c.Window());
  }

  lemma AdmissionKeepsSpacing(c: Config, live: Hits, past: Hits, now: real)
    requires c.Valid() && Remembers(c, live, past, now) && |live| < c.max
    ensures Remembers(c, live + [now], past + [now], now)
  {
    assert (past + [now])[|past| - |live|..] == live + [now];
  }

  ghost predicate AllRemembered(c: Config, s: State, past: map<string, Hits>, latest: real) {
    forall key :: Remembers(c, Stored(s.buckets, key), Stored(past, key), latest)
  }

  lemma SweptStored(c: Config, s: State, key: string, now: real)
    ensures Stored(Swept(c, s, now).buckets, key)
         == if now < s.nextSweep then Stored(s.buckets, key) else Live(Stored(s.buckets, key), now - c.Window())
  {
  }

  lemma SweptRemembersKey(c: Config, s: State, past: Hits, key: string, latest: real, now: real)
    requires c.Valid() && Remembers(c, Stored(s.buckets, key), past, latest) && latest <= now
    ensures Remembers(c, Stored(Swept(c, s, now).buckets, key), past, now)
  {
    RememberLater(c, Stored(s.buckets, key), past, latest, now);
    RememberLive(c, Stored(s.buckets, key), past, latest, now);
    SweptStored(c, s, key, now);
  }

  lemma SweptRemembered(c: Config, s: State, past: map<string, Hits>, latest: real, now: real)
    requires c.Valid() && AllRemembered(c, s, past, latest) && latest <= now
    ensures AllRemembered(c, Swept(c, s, now), past, now)
  {
    forall key ensures Remembers(c, Stored(Swept(c, s, now).buckets, key), Stored(past, key), now) {
      SweptRemembersKey(c, s, Stored(past, key), key, latest, now);
    }
  }

  lemma TrimmedStored(c: Config, s: State, trimmed: string, key: string, now: real)
    ensures Stored(Trimmed(c, s, trimmed, now).buckets, key)
         == if key == trimmed then Live(Stored(s.buckets, key), now - c.Window()) else Stored(s.buckets, key)
  {
  }

  lemma TrimmedRemembersKey(c: Config, s: State, past: Hits, trimmed: string, key: string, now: real)
    requires c.Valid() && Remembers(c, Stored(s.buckets, key), past, now)
    ensures Remembers(c, Stored(Trimmed(c, s, trimmed, now).buckets, key), past, now)
    ensures key == trimmed ==> Stored(Trimmed(c, s, trimmed, now).buckets, key) == Live(past, now - c.Window())
  {
    RememberLive(c, Stored(s.buckets, key), past, now, now);
    TrimmedStored(c, s, trimmed, key, now);
  }

  lemma TrimmedRemembered(c: Config, s: State, past: map<string, Hits>, trimmed: string, now: real)
    requires c.Valid() && AllRemembered(c, s, past, now)
    ensures AllRemembered(c, Trimmed(c, s, trimmed, now), past, now)
    ensures Stored(Trimmed(c, s, trimmed, now).buckets, trimmed) == Live(Stored(past, trimmed), now - c.Window())
  {
    forall key ensures Remembers(c, Stored(Trimmed(c, s, trimmed, now).buckets, key), Stored(past, key), now) {
      TrimmedRemembersKey(c, s, Stored(past, key), trimmed, key, now);
    }
    TrimmedRemembersKey(c, s, Stored(past, trimmed), trimmed, trimmed, now);
  }

  lemma ReadyFaithful(c: Config, a: Account, key: string, now: real)
    requires c.Valid() && Faithful(c, a) && a.latest <= now
    ensures Faithful(c, Account(Ready(c, a.state, key, now), a.past, now))
    ensures now < Ready(c, a.state, key, now).nextSweep
    ensures Stored(Ready(c, a.state, key, now).buckets, key) == Live(Stored(a.past, key), now - c.Window())
  {
    var swept := Swept(c, a.state, now);
    SweptBounded(c, a.state, now);
    SweptRemembered(c, a.state, a.past, a.latest, now);
    TrimmedBounded(c, swept, key, now);
    TrimmedRemembered(c, swept, a.past, key, now);
  }

  lemma AdmittedRemembered(c: Config, s: State, past: map<string, Hits>, key: string, now: real)
    requires c.Valid() && AllRemembered(c, s, past, now) && |Stored(s.buckets, key)| < c.max
    ensures AllRemembered(c, Admitted(s, key, now), past[key := Stored(past, key) + [now]], now)
  {
    assert Remembers(c, Stored(s.buckets, key), Stored(past, key), now);
    AdmissionKeepsSpacing(c, Stored(s.buckets, key), Stored(past, key), now);
    var after, past' := Admitted(s, key, now), past[key := Stored(past, key) + [now]];
    forall k ensures Remembers(c, Stored(after.buckets, k), Stored(past', k), now) {
      if k != key {
        assert Remembers(c, Stored(s.buckets, k), Stored(past, k), now);
        assert Stored(after.buckets, k) == Stored(s.buckets, k) && Stored(past', k) == Stored(past, k);
      }
    }
  }

  lemma AdmittedFaithful(c: Config, a: Account, key: string, now: real)
    requires c.Valid() && Faithful(c, a) && a.latest == now && Admits(c, a.state, key)
    ensures Faithful(c, Account(Admitted(a.state, key, now), a.past[key := Stored(a.past, key) + [now]], now))
  {
    var stored, past := Stored(a.state.buckets, key), Stored(a.past, key);
    assert stored != [] ==> stored[|stored|-1] <= now by {
      assert Remembers(c, stored, past, now);
      assert stored != [] ==> stored[|stored|-1] == past[|past|-1];
    }
    AdmittedBounded(c, a.state, key, now);
    AdmittedRemembered(c, a.state, a.past, key, now);
  }

  lemma ResetFaithful(c: Config, a: Account, key: string)
    requires c.Valid() && Faithful(c, a)
    ensures Faithful(c, Account(Forgotten(a.state, key), a.past - {key}, a.latest))
  {
    PutBounded(c, a.state, key, []);
    var after, past' := Forgotten(a.state, key), a.past - {key};
    forall k ensures Remembers(c, Stored(after.buckets, k), Stored(past', k), a.latest) {
      if k != key {
        assert Remembers(c, Stored(a.state.buckets, k), Stored(a.past, k), a.latest);
        assert Stored(after.buckets, k) == Stored(a.state.buckets, k) && Stored(past', k) == Stored(a.past, k);
      }
    }
  }

  lemma FaithfulStep(c: Config, a: Account, call: Call)
    requires c.Valid() && Faithful(c, a) && InOrder(a, call)
    ensures Faithful(c, Perform(c, a, call))
    ensures !call.ResetKey? ==> Perform(c, a, call).latest < Perform(c, a, call).state.nextSweep
  {
    match call
    case AskRemaining(key, now) =>
      ReadyFaithful(c, a, key, now);
    case TakeHit(key, now) =>
      ReadyFaithful(c, a, key, now);
      var ready := Account(Ready(c, a.state, key, now), a.past, now);
      if Admits(c, ready.state, key) {
        AdmittedFaithful(c, ready, key, now);
      }
    case ResetKey(key) =>
      ResetFaithful(c, a, key);
  }

  /** After every call of every traffic, storage is bounded and agrees with the full history. */
  lemma {:induction false} TrafficFaithful(c: Config, calls: seq<Call>, a: seq<Account>, i: nat)
    requires c.Valid() && IsTraffic(c, calls, a) && i <= |calls|
    ensures Faithful(c, a[i])
  {
    if i == 0 {
      assert OPENED.state.buckets == map[];
      forall key ensures Remembers(c, Stored(a[0].state.buckets, key), Stored(a[0].past, key), a[0].latest) {
      }
    } else {
      TrafficFaithful(c, calls, a, i - 1);
      FaithfulStep(c, a[i-1], calls[i-1]);
    }
  }

  /** Hits of a history in the half-open interval from just after `from` to `to`. */
  function HitsWithin(past: Hits, from: real, to: real): int {
    |Live(past, from)| - |Live(past, to)|
  }

  /** Between resets, no window holds more than `max` admitted hits of a key. */
  lemma NoWindowOverfull(c: Config, calls: seq<Call>, a: seq<Account>, i: nat, key: string, from: real)
    requires c.Valid() && IsTraffic(c, calls, a) && i <= |calls|
    ensures HitsWithin(Stored(a[i].past, key), from, from + c.Window()) <= c.max
  {
    TrafficFaithful(c, calls, a, i);
    var past := Stored(a[i].past, key);
    assert Remembers(c, Stored(a[i].state.buckets, key), past, a[i].latest);
    var n := LiveSuffix(past, from);
    var m := LiveSuffix(past, from + c.Window());
    assert n + c.max < |past| ==> past[n] + c.Window() <= past[n + c.max];
  }

  /** A take is decided by the full history's live hits, as long as storage is not what refuses it. */
  lemma TakeDecidedByHistory(c: Config, calls: seq<Call>, a: seq<Account>, i: nat, key: string, now: real)
    requires c.Valid() && IsTraffic(c, calls, a) && i <= |calls| && a[i].latest <= now
    ensures
      var ready := Ready(c, a[i].state, key, now);
      var live := Live(Stored(a[i].past, key), now - c.Window());
      Admits(c, ready, key) <==>
      |live| < c.max && ready.entries < c.maxEntries && (live != [] || |ready.buckets| < c.maxBuckets)
  {
    TrafficFaithful(c, calls, a, i);
    ReadyFaithful(c, a[i], key, now);
  }

  /** Stored hits are never older than a window plus a sweep interval once a timed call returns. */
  lemma StoredHitsAreRecent(c: Config, calls: seq<Call>, a: seq<Account>, i: nat, key: string, k: nat)
    requires c.Valid() && IsTraffic(c, calls, a) && i < |calls| && !calls[i].ResetKey?
    requires k < |Stored(a[i+1].state.buckets, key)|
    ensures a[i+1].latest - c.Window() - c.SweepEvery() < Stored(a[i+1].state.buckets, key)[k]
  {
    TrafficFaithful(c, calls, a, i);
    FaithfulStep(c, a[i], calls[i]);
    assert Kept(c, a[i+1].state.nextSweep, Stored(a[i+1].state.buckets, key));
  }

  lemma LiveMatchesHistory(c: Config, a: Account, key: string, later: real)
    requires c.Valid() && Faithful(c, a) && a.latest <= later
    ensures Live(Stored(a.state.buckets, key), later - c.Window()) == Live(Stored(a.past, key), later - c.Window())
  {
    assert Remembers(c, Stored(a.state.buckets, key), Stored(a.past, key), a.latest);
    RememberLive(c, Stored(a.state.buckets, key), Stored(a.past, key), a.latest, later);
  }

  /** A call on one key never changes which hits of another key are live, then or later. */
  lemma OtherKeysUntouched(c: Config, a: Account, call: Call, other: string, later: real)
    requires c.Valid() && Faithful(c, a) && InOrder(a, call) && other != call.key
    requires Perform(c, a, call).latest <= later
    ensures Live(Stored(Perform(c, a, call).state.buckets, other), later - c.Window())
         == Live(Stored(a.state.buckets, other), later - c.Window())
  {
    FaithfulStep(c, a, call);
    LiveMatchesHistory(c, a, other, later);
    LiveMatchesHistory(c, Perform(c, a, call), other, later);
    OtherHistoryUntouched(c, a, call, other);
  }

  lemma OtherHistoryUntouched(c: Config, a: Account, call: Call, other: string)
    requires other != call.key
    ensures Stored(Perform(c, a, call).past, other) == Stored(a.past, other)
  {
  }

  // ---------------------------------------------------------------- remaining() is exact

  /** States passed through by takes of one key made at once. */
  ghost predicate IsBurst(c: Config, states: seq<State>, key: string, now: real) {
    forall i | 0 < i < |states| :: states[i] == Taken(c, states[i-1], key, now)
  }

  /** Nothing is due: sweeping and trimming this key at `now` would change nothing. */
  ghost predicate Settled(c: Config, s: State, key: string, now: real) {
    && now < s.nextSweep
    && (key in s.buckets ==> s.buckets[key] != [])
    && forall i | 0 <= i < |Stored(s.buckets, key)| :: now - c.Window() < Stored(s.buckets, key)[i]
  }

  lemma SettledIsReady(c: Config, s: State, key: string, now: real)
    requires Settled(c, s, key, now)
    ensures Ready(c, s, key, now) == s
  {
    LiveFrom(Stored(s.buckets, key), now - c.Window(), 0);
    assert Put(s.buckets, key, Stored(s.buckets, key)) == s.buckets;
  }

  lemma ReadyIsSettled(c: Config, a: Account, key: string, now: real)
    requires c.Valid() && Faithful(c, a) && a.latest <= now
    ensures Settled(c, Ready(c, a.state, key, now), key, now)
  {
    var ready := Ready(c, a.state, key, now);
    assert now < ready.nextSweep && AllKept(c, ready)
           && Stored(ready.buckets, key) == Live(Stored(a.past, key), now - c.Window()) by {
      ReadyFaithful(c, a, key, now);
    }
    LiveAfterCutoff(Stored(a.past, key), now - c.Window());
  }

  lemma {:induction false} LiveAfterCutoff(hits: Hits, cutoff: real)
    ensures forall i | 0 <= i < |Live(hits, cutoff)| :: cutoff < Live(hits, cutoff)[i]
  {
    if hits != [] {
      LiveAfterCutoff(hits[1..], cutoff);
    }
  }

  lemma TakeWhenSettled(c: Config, s: State, key: string, now: real)
    requires c.Valid() && Settled(c, s, key, now) && Admits(c, s, key)
    ensures Taken(c, s, key, now) == Admitted(s, key, now)
    ensures Settled(c, Admitted(s, key, now), key, now)
  {
    SettledIsReady(c, s, key, now);
    assert 0.0 < c.Window();
  }

  /** `s` is `ready` after n takes made at once. */
  ghost predicate Further(ready: State, s: State, key: string, n: nat) {
    && |Stored(s.buckets, key)| == |Stored(ready.buckets, key)| + n
    && s.entries == ready.entries + n
    && (n == 0 ==> s == ready)
  }

  lemma QuotaDecides(c: Config, ready: State, s: State, key: string, n: nat)
    requires c.Valid() && Further(ready, s, key, n) && n <= Quota(c, ready, key)
    ensures Admits(c, s, key) <==> n < Quota(c, ready, key)
  {
  }

  lemma OneMoreTake(c: Config, ready: State, s: State, key: string, now: real, n: nat)
    requires c.Valid() && Settled(c, s, key, now) && Further(ready, s, key, n) && n < Quota(c, ready, key)
    ensures Settled(c, Taken(c, s, key, now), key, now)
    ensures Further(ready, Taken(c, s, key, now), key, n + 1)
  {
    QuotaDecides(c, ready, s, key, n);
    TakeWhenSettled(c, s, key, now);
  }

  lemma {:induction false} BurstCounts(c: Config, states: seq<State>, key: string, now: real, n: nat)
    requires c.Valid() && n < |states| && IsBurst(c, states, key, now)
    requires Settled(c, states[0], key, now) && n <= Quota(c, states[0], key)
    ensures Settled(c, states[n], key, now) && Further(states[0], states[n], key, n)
  {
    if n > 0 {
      BurstCounts(c, states, key, now, n - 1);
      OneMoreTake(c, states[0], states[n-1], key, now, n - 1);
    }
  }

  /** remaining() returned r: exactly r takes made at once succeed, and the next one fails. */
  lemma RemainingIsExact(c: Config, calls: seq<Call>, a: seq<Account>, i: nat, key: string, now: real,
                         states: seq<State>, n: nat)
    requires c.Valid() && IsTraffic(c, calls, a) && i <= |calls| && a[i].latest <= now
    requires n < |states| && IsBurst(c, states, key, now) && states[0] == Ready(c, a[i].state, key, now)
    requires n <= Quota(c, states[0], key)
    ensures Admits(c, Ready(c, states[n], key, now), key) <==> n < Quota(c, states[0], key)
  {
    TrafficFaithful(c, calls, a, i);
    ReadyIsSettled(c, a[i], key, now);
    BurstCounts(c, states, key, now, n);
    SettledIsReady(c, states[n], key, now);
    QuotaDecides(c, states[0], states[n], key, n);
  }

  // ---------------------------------------------------------------- the limiter itself

  /** The buckets halfway through a sweep, with these keys still to visit. */
  ghost function PartlySwept(buckets: map<string, Hits>, keys: set<string>, cutoff: real): map<string, Hits> {
    map key | key in buckets && (key in keys || Live(buckets[key], cutoff) != [])
            :: if key in keys then buckets[key] else Live(buckets[key], cutoff)
  }

  lemma SweepOneKey(buckets: map<string, Hits>, keys: set<string>, cutoff: real, key: string)
    requires key in keys && keys <= buckets.Keys
    ensures Put(PartlySwept(buckets, keys, cutoff), key, Live(buckets[key], cutoff))
         == PartlySwept(buckets, keys - {key}, cutoff)
  {
  }

  class RateLimiter {
    const config: Config
    var buckets: map<string, Hits>
    var entries: int
    var nextSweep: real

    ghost function Held(): State
      reads this
    {
      State(buckets, entries, nextSweep)
    }

    constructor (config: Config)
      requires config.Valid()
      ensures this.config == config && Held() == OPENED.state
    {
      this.config := config;
      buckets, entries, nextSweep := map[], 0, 0.0;
    }

    method Trim(key: string, now: real) returns (live: Hits)
      modifies this`buckets, this`entries
      ensures Held() == Trimmed(config, old(Held()), key, now)
      ensures live == Stored(buckets, key)
    {
      var previous := if key in buckets then buckets[key] else [];
      live := Live(previous, now - config.windowMs as real);
      entries := entries - (|previous| - |live|);
      if |live| == 0 {
        buckets := buckets - {key};
      } else {
        buckets := buckets[key := live];
      }
    }

    method Sweep(now: real)
      modifies this
      ensures Held() == Swept(config, old(Held()), now)
    {
      if now < nextSweep { return; }
      ghost var before, cutoff := buckets, now - config.Window();
      var keys := buckets.Keys;
      while keys != {}
        invariant keys <= before.Keys && nextSweep == old(nextSweep)
        invariant buckets == PartlySwept(before, keys, cutoff)
        invariant entries == old(entries) - Total(before) + Total(buckets)
        decreases |keys|
      {
        var key :| key in keys;
        SweepOneKey(before, keys, cutoff, key);
        TotalPut(buckets, key, Live(buckets[key], cutoff));
        var live := Trim(key, now);
        keys := keys - {key};
      }
      assert buckets == SweptBuckets(before, cutoff);
      nextSweep := now + if config.windowMs < 1000 then config.windowMs as real else 1000.0;
    }

    method Take(key: string, now: real) returns (allowed: bool)
      modifies this
      ensures Held() == Taken(config, old(Held()), key, now)
      ensures allowed == Admits(config, Ready(config, old(Held()), key, now), key)
    {
      Sweep(now);
      var hits := Trim(key, now);
      ghost var ready := Held();
      assert ready == Ready(config, old(Held()), key, now);
      if |hits| >= config.max || entries >= config.maxEntries { return false; }
      if |hits| == 0 && |buckets| >= config.maxBuckets { return false; }
      entries := entries + 1;
      buckets := buckets[key := hits + [now]];
      assert Held() == Admitted(ready, key, now);
      return true;
    }

    method Remaining(key: string, now: real) returns (left: int)
      modifies this
      ensures Held() == Ready(config, old(Held()), key, now)
      ensures left == Quota(config, Held(), key)
    {
      Sweep(now);
      var hits := Trim(key, now);
      if |hits| == 0 && |buckets| >= config.maxBuckets { return 0; }
      left := if config.max - |hits| < config.maxEntries - entries then config.max - |hits|
              else config.maxEntries - entries;
      left := if left < 0 then 0 else left;
    }

    method Reset(key: string)
      modifies this`buckets, this`entries
      ensures Held() == Forgotten(old(Held()), key)
    {
      entries := entries - if key in buckets then |buckets[key]| else 0;
      buckets := buckets - {key};
    }
  }

  /** The configuration with its defaults filled in. */
  function Configured(windowMs: int, max: int, maxBuckets: Option<int>, maxEntries: Option<int>): Config {
    Config(windowMs, max,
           if maxBuckets.Some? then maxBuckets.value else 10000, if maxEntries.Some? then maxEntries.value else 100000)
  }

  /** A limiter is made exactly when all four numbers are positive safe integers; null stands for the error. */
  /** Limits are whole numbers from 1 to 2 to the 53 less one; left out, they are ten and a hundred thousand. */
  lemma ConfigurationLimits(windowMs: int, max: int, maxBuckets: Option<int>, maxEntries: Option<int>)
    ensures Configured(windowMs, max, maxBuckets, maxEntries).Valid() <==>
              && 1 <= windowMs <= 9007199254740991 && 1 <= max <= 9007199254740991
              && (maxBuckets.Some? ==> 1 <= maxBuckets.value <= 9007199254740991)
              && (maxEntries.Some? ==> 1 <= maxEntries.value <= 9007199254740991)
    ensures Configured(windowMs, max, None, maxEntries).maxBuckets == 10_000
    ensures Configured(windowMs, max, maxBuckets, None).maxEntries == 100_000
  {
  }

  method CreateRateLimiter(windowMs: int, max: int, maxBuckets: Option<int>, maxEntries: Option<int>)
    returns (limiter: RateLimiter?)
    ensures limiter != null <==> Configured(windowMs, max, maxBuckets, maxEntries).Valid()
    ensures limiter != null ==> && fresh(limiter) && limiter.Held() == OPENED.state
                                && limiter.config == Configured(windowMs, max, maxBuckets, maxEntries)
  {
    var config := Configured(windowMs, max, maxBuckets, maxEntries);
    var values := [config.windowMs, config.max, config.maxBuckets, config.maxEntries];
    var i := 0;
    while i < |values|
      invariant 0 <= i <= 4 && forall j | 0 <= j < i :: 0 < values[j] <= MAX_SAFE_INTEGER
    {
      if values[i] > MAX_SAFE_INTEGER || values[i] <= 0 { return null; }
      i := i + 1;
    }
    assert 0 < values[0] && 0 < values[1] && 0 < values[2] && 0 < values[3];
    limiter := new RateLimiter(config);
  }
}
