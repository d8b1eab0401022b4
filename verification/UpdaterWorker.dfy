/**
  The updater's two processes over the durable state of UpdaterJournal: the service's `Tick` and the
  detached helper's `Apply`. The install mutex lets one of them run at a time.

  Every primitive that touches a file or the installer lets the world drift first, can fail, and can
  be the last thing its process does (`Crashed`). Each world passed through is appended to `log`, and
  `Valid` says that `log` is a run, so the run lemmas hold of a process cut off at any point.
*/
module UpdaterWorker {
  import opened Common
  import opened UpdaterJournal

  /** Done: the call returned. Failed: it returned an error. Crashed: the process is gone. */
  datatype Io = Done | Failed | Crashed

  datatype Check = Check(upToDate: bool, update: Option<Artifact>, policy: Option<Policy>, push: Option<string>)

  /** Everything a tick learns from outside: its enrolment, BF's answers, the bodies it downloads. */
  datatype Replies = Replies(
    signedIn: bool, server: Option<string>, demo: bool, stillEnrolled: bool,
    first: Option<Check>, windowOpen: bool,
    previous: Option<Artifact>, previousBody: Option<Package>,
    candidateBody: Option<Package>,
    second: Option<Check>, windowStillOpen: bool)

  /**
    The desktop sessions a helper finds before and while stopping the clients, whether anybody is signed in once the
    candidate runs, and at which poll nobody is any more.
  */
  datatype Desktop = Desktop(sessions: seq<nat>, stopped: seq<nat>, signedIn: bool, leaves: nat)

  datatype Visit = Service(replies: Replies) | Helper(desktop: Desktop)

  /** Desktop sessions to resume: those seen before stopping the clients, then any found while stopping. */
  function Joined(sessions: seq<nat>, stopped: seq<nat>): seq<nat>
    decreases |stopped|
  {
    if stopped == [] then sessions
    else Joined(if stopped[0] in sessions then sessions else sessions + [stopped[0]], stopped[1..])
  }

  /** Sessions seen keep their order, the others follow, and nobody is resumed twice. */
  lemma {:induction false} JoinedOnce(sessions: seq<nat>, stopped: seq<nat>)
    requires forall i, j | 0 <= i < j < |sessions| :: sessions[i] != sessions[j]
    ensures sessions <= Joined(sessions, stopped)
    ensures forall s :: s in Joined(sessions, stopped) <==> s in sessions || s in stopped
    ensures var all := Joined(sessions, stopped); forall i, j | 0 <= i < j < |all| :: all[i] != all[j]
    decreases |stopped|
  {
    if stopped != [] {
      JoinedOnce(if stopped[0] in sessions then sessions else sessions + [stopped[0]], stopped[1..]);
    }
  }

  /** The recheck after the downloads offers the same package still, and it may be installed now. */
  predicate StillOffered(net: Replies, candidate: Artifact) {
    && net.stillEnrolled && net.second.Some?
    && var again := net.second.value;
    && !again.upToDate && again.update.Some?
    && again.update.value.sha256 == candidate.sha256 && again.update.value.version == candidate.version
    && (again.push.Some? || net.windowStillOpen)
  }

  /** The installed release is still on offer, as the way back. */
  predicate HasWayBack(t: Trust, net: Replies, installed: string) {
    net.previous.Some? && net.previous.value.version == installed && ValidateOffer(t, net.previous.value, "")
  }

  /** Both packages can be had: the way back from disk or by download, the candidate by download. */
  predicate Stageable(t: Trust, disk: Disk, previous: Artifact, previousBody: Option<Package>, candidate: Artifact,
      candidateBody: Option<Package>) {
    var kept := if VerifyFile(t, disk.previousMsi, previous) then disk.previousMsi else previousBody;
    && VerifyFile(t, kept, previous) && ValidateMsi(kept, previous.version)
    && VerifyFile(t, candidateBody, candidate) && ValidateMsi(candidateBody, candidate.version)
  }

  /** The policy in force: the offer's, or else the saved one unless it was suspended since. */
  function PolicyInForce(saved: Option<SavedPolicy>, cancellation: Option<string>, offer: Check): Option<Policy> {
    if offer.policy.Some? then offer.policy
    else if saved.Some? && saved.value.cancellation == cancellation then Some(saved.value.policy) else None
  }

  predicate PolicyIsTheServers(net: Replies, saved: Option<SavedPolicy>, cancellation: Option<string>) {
    && net.first.Some?
    && var policy := PolicyInForce(saved, cancellation, net.first.value);
    policy.Some? && net.server == Some(policy.value.server)
  }

  /** The server is silent or its policy another one's, or it makes no offer that can be taken up and back. */
  predicate MustFail(t: Trust, net: Replies, disk: Disk, cancellation: Option<string>, installed: string) {
    || net.first.None? || net.first.value.update.None? || net.second.None?
    || !PolicyIsTheServers(net, disk.policy, cancellation)
    || !Takable(t, net, disk, net.first.value.update.value, installed)
  }

  predicate Takable(t: Trust, net: Replies, disk: Disk, candidate: Artifact, installed: string) {
    && ValidateOffer(t, candidate, installed) && t.hasKey && HasWayBack(t, net, installed)
    && Stageable(t, disk, net.previous.value, net.previousBody, candidate, net.candidateBody)
  }

  /** Not enrolled, up to date, out of the window, out of attempts, or offered something else at the recheck. */
  predicate NothingToDo(net: Replies, attempts: Option<Attempts>, now: int) {
    || net.server.None? || net.demo
    || (net.first.Some? && (net.first.value.upToDate || (net.first.value.push.None? && !net.windowOpen)))
    || (net.first.Some? && net.first.value.update.Some?
        && var candidate := net.first.value.update.value;
        Spent(Budget(attempts, candidate.version, net.first.value.push), now) || !StillOffered(net, candidate))
  }

  /** What a tick that opens a journal has been told: an enrolled server offers an upgrade, now, twice. */
  predicate Approved(t: Trust, net: Replies, p: Pending, installed: string) {
    && net.server.Some? && !net.demo && net.first.Some? && !net.first.value.upToDate
    && net.first.value.update == Some(p.candidate) && (net.first.value.push.Some? || net.windowOpen)
    && ValidateOffer(t, p.candidate, installed) && t.hasKey
    && net.previous == Some(p.previous) && HasWayBack(t, net, installed)
    && StillOffered(net, p.candidate)
  }

  /** The saved policy once the recheck has answered. */
  function PolicyAfter(net: Replies, saved: Option<SavedPolicy>, cancellation: Option<string>): Option<SavedPolicy> {
    if net.second.Some? && net.second.value.policy.Some?
        then Some(SavedPolicy(net.second.value.policy.value, cancellation)) else saved
  }

  /** The candidate is installed and its health awaited. */
  predicate Waits(p: Pending, installed: string) {
    p.stage == AwaitingHealth && installed == p.candidate.version
  }

  /** The journal of a candidate without a report: still waiting for five minutes from `since`, then rolled back. */
  function Aged(p: Pending, since: Option<int>, now: int): Pending {
    p.(healthStarted := since, stage := if since.Some? && now - since.value >= 300 then Rollback else AwaitingHealth)
  }

  /** The journal's candidate is on disk, verified and of the right version. */
  predicate Installable(t: Trust, disk: Disk) {
    && disk.pending.Some? && VerifyFile(t, disk.candidateMsi, disk.pending.value.candidate)
    && ValidateMsi(disk.candidateMsi, disk.pending.value.candidate.version)
  }

  /** Updates have been suspended, or resumed, since the policy was saved. */
  ghost predicate Suspended(w: World) {
    w.disk.policy.None? || w.disk.policy.value.cancellation != w.cancellation
  }

  /** A hundred and fifty looks at the health file, none of which found the report the journal waits for. */
  ghost predicate Unseen(looks: seq<World>) {
    |looks| == 150
    && forall k | 0 <= k < 150 :: looks[k].disk.pending.Some? && !Reported(looks[k], looks[k].disk.pending.value)
  }

  class Updater {
    const trust: Trust
    var disk: Disk
    var installed: string
    var health: Option<Health>
    var cancellation: Option<string>
    var clock: int
    var helpers: nat
    ghost var book: Book
    ghost var log: seq<World>
    ghost var faults: nat      // how often a file, a process, an installer or a probe has failed, or a crash struck

    ghost function Now(): World
      reads this
    {
      World(disk, installed, health, cancellation, clock, helpers, book)
    }

    ghost predicate Valid()
      reads this
    {
      IsRun(trust, log) && log[|log|-1] == Now()
    }

    /** Since that point updates were, at least once, neither suspended nor resumed. */
    ghost predicate Unsuspended(from: nat, cancellation: Option<string>)
      reads this
    {
      exists i :: from <= i < |log| && log[i].cancellation == cancellation
    }

    constructor (trust: Trust, installed: string, policy: Option<SavedPolicy>, clock: int)
      ensures Valid() && this.trust == trust && this.installed == installed && |log| == 1
    {
      this.trust := trust;
      this.installed := installed;
      this.clock := clock;
      disk := Disk(None, None, policy, None, None);
      health, cancellation, helpers := None, None, 0;
      book := Book(installed, [], [], 0, None, false, [], false, []);
      new;
      log, faults := [Now()], 0;
    }

    /** Appends the current world to the log. */
    ghost method Record()
      requires IsRun(trust, log) && Step(trust, log[|log|-1], Now())
      modifies this`log
      ensures Valid() && log == old(log) + [Now()]
    {
      ExtendRun(trust, log, Now());
      log := log + [Now()];
    }

    ghost method Fault()
      modifies this`faults
      ensures faults == old(faults) + 1
    {
      faults := faults + 1;
    }

    method Drift()
      requires Valid()
      modifies this
      ensures Valid() && log == old(log) + [Now()] && Drifts(old(Now()), Now()) && faults == old(faults)
    {
      var later :| clock <= later;
      clock := later;
      health := *;
      cancellation := *;
      Record();
    }

    // -------------------------------------------------------------- files

    method SavePolicy(saved: SavedPolicy) returns (o: Io)
      requires Valid()
      modifies this
      ensures disk.policy == old(disk).policy || disk.policy == Some(saved)
      ensures Valid() && old(log) <= log
      ensures old(faults) <= faults && (o.Done? <==> faults == old(faults)) && helpers == old(helpers)
      ensures o.Done? ==> Drifts(old(Now()).(disk := old(disk).(policy := Some(saved))), Now())
      ensures disk.pending == old(disk).pending && installed == old(installed)
    {
      Drift();
      if * { Fault(); return Crashed; } else if * { Fault(); return Failed; }
      disk := disk.(policy := Some(saved));
      Record();
      if * { Fault(); return Crashed; }
      return Done;
    }

    /** Downloads to a staging file, verifies it, and only then replaces the previous installer. */
    method DownloadPrevious(info: Artifact, body: Option<Package>) returns (o: Io)
      requires Valid() && disk.pending.None?
      modifies this
      ensures disk.policy == old(disk).policy
      ensures Valid() && old(log) <= log
      ensures old(faults) <= faults && helpers == old(helpers)
      ensures o.Done? ==> faults == old(faults) && disk.previousMsi == body
      ensures faults == old(faults) ==> o == if VerifyFile(trust, body, info) then Done else Failed
      ensures o.Done? ==> VerifyFile(trust, disk.previousMsi, info)
                          && Drifts(old(Now()).(disk := old(disk).(previousMsi := disk.previousMsi)), Now())
      ensures disk.pending == old(disk).pending && installed == old(installed)
      ensures disk.previousMsi == old(disk).previousMsi || VerifyFile(trust, disk.previousMsi, info)
    {
      Drift();
      if * { Fault(); return Crashed; } else if * { Fault(); return Failed; }
      if !VerifyFile(trust, body, info) { return Failed; }
      disk := disk.(previousMsi := body);
      Record();
      if * { Fault(); return Crashed; }
      return Done;
    }

    method DownloadCandidate(info: Artifact, body: Option<Package>) returns (o: Io)
      requires Valid() && disk.pending.None?
      modifies this
      ensures disk.policy == old(disk).policy
      ensures Valid() && old(log) <= log
      ensures old(faults) <= faults && helpers == old(helpers)
      ensures o.Done? ==> faults == old(faults) && disk.candidateMsi == body
      ensures faults == old(faults) ==> o == if VerifyFile(trust, body, info) then Done else Failed
      ensures o.Done? ==> VerifyFile(trust, disk.candidateMsi, info)
                          && Drifts(old(Now()).(disk := old(disk).(candidateMsi := disk.candidateMsi)), Now())
      ensures disk.pending == old(disk).pending && installed == old(installed)
      ensures disk.candidateMsi == old(disk).candidateMsi || VerifyFile(trust, disk.candidateMsi, info)
    {
      Drift();
      if * { Fault(); return Crashed; } else if * { Fault(); return Failed; }
      if !VerifyFile(trust, body, info) { return Failed; }
      disk := disk.(candidateMsi := body);
      Record();
      if * { Fault(); return Crashed; }
      return Done;
    }

    method SaveAttempts(a: Attempts, ghost push: Option<string>, ghost at: int) returns (o: Io)
      requires Valid() && disk.pending.None? && at <= clock
      requires var b := Budget(disk.attempts, a.version, push);
               b.count < MAX_ATTEMPTS && b.retryAt <= at && a == Spend(b, at)
      modifies this
      ensures disk.policy == old(disk).policy
      ensures Valid() && old(log) <= log
      ensures old(faults) <= faults && (o.Done? <==> faults == old(faults)) && helpers == old(helpers)
      ensures o.Done? ==> Drifts(old(Now()).(disk := old(disk).(attempts := Some(a)),
                                             book := old(book).(starts := old(book).starts + [Start(push, at, a)])),
                                 Now())
      ensures disk.pending == old(disk).pending && installed == old(installed)
    {
      Drift();
      if * { Fault(); return Crashed; } else if * { Fault(); return Failed; }
      ghost var before := Now();
      disk := disk.(attempts := Some(a));
      book := book.(starts := book.starts + [Start(push, at, a)]);
      assert StartsAttempt(before, Now(), Start(push, at, a));
      Record();
      if * { Fault(); return Crashed; }
      return Done;
    }

    method OpenJournal(p: Pending) returns (o: Io)
      requires Valid() && 0 < |book.starts|
      requires OpensJournal(trust, Now(), Now().(disk := disk.(pending := Some(p)), book := OpenedBook(Now(), p)), p)
      modifies this
      ensures Valid() && old(log) <= log
      ensures old(faults) <= faults && (o.Done? <==> faults == old(faults)) && helpers == old(helpers)
      ensures disk == old(disk).(pending := disk.pending) && book.starts == old(book).starts
          && installed == old(installed)
      ensures (disk.pending.None? && !o.Done?) || disk.pending == Some(p)
      ensures o.Done? ==> !book.launched
    {
      Drift();
      if * { Fault(); return Crashed; } else if * { Fault(); return Failed; }
      ghost var before := Now();
      disk := disk.(pending := Some(p));
      book := OpenedBook(before, p);
      assert OpensJournal(trust, before, Now(), p);
      Record();
      if * { Fault(); return Crashed; }
      return Done;
    }

    method SaveJournal(p: Pending) returns (o: Io)
      requires Valid() && disk.pending.Some? && Continues(disk.pending.value, p, clock)
      modifies this
      ensures Valid() && old(log) <= log
      ensures old(faults) <= faults && (o.Done? <==> faults == old(faults)) && helpers == old(helpers)
      ensures o.Done? ==> Drifts(old(Now()).(disk := old(disk).(pending := Some(p))), Now())
      ensures o.Failed? ==> Drifts(old(Now()), Now())
      ensures installed == old(installed) && (disk.pending == old(disk).pending || disk.pending == Some(p))
    {
      Drift();
      if * { Fault(); return Crashed; } else if * { Fault(); return Failed; }
      ghost var before := Now();
      disk := disk.(pending := Some(p));
      assert RewritesJournal(before, Now(), p);
      Record();
      if * { Fault(); return Crashed; }
      return Done;
    }

    /** Copies the executable and starts the copy as a detached helper; either can fail. */
    method Handoff() returns (o: Io)
      requires Valid() && disk.pending.Some?
      requires disk.pending.value.stage == Rollback || (disk.pending.value.stage == Installing && !book.launched)
      modifies this
      ensures Valid() && old(log) <= log
      ensures old(faults) <= faults && (o.Done? <==> faults == old(faults))
      ensures disk == old(disk) && installed == old(installed) && book.starts == old(book).starts
      ensures clock >= old(clock) && (o.Done? ==> helpers == old(helpers) + 1)
    {
      Drift();
      if * { Fault(); return Crashed; } else if * { Fault(); return Failed; }
      helpers := helpers + 1;
      book := book.(launched := true);
      Record();
      if * { Fault(); return Crashed; }
      return Done;
    }

    /** The helper process is gone without having run the candidate's installer. */
    method EndHelper()
      requires Valid()
      modifies this
      ensures Valid() && old(log) <= log && disk == old(disk) && installed == old(installed) && book == old(book)
      ensures faults == old(faults) && helpers == if old(helpers) > 0 then old(helpers) - 1 else 0
    {
      if helpers > 0 {
        helpers := helpers - 1;
        Record();
      }
    }

    /** Removes the journal of a candidate observed healthy. */
    method RemoveConfirmed() returns (o: Io)
      requires Valid() && Confirms(Now(), Now().(disk := disk.(pending := None), book := book.(rest := installed)))
      modifies this
      ensures Valid() && old(log) <= log
      ensures old(faults) <= faults && (o.Done? <==> faults == old(faults)) && helpers == old(helpers)
      ensures o.Done? ==> disk.pending.None? && installed == book.rest
      ensures installed == old(installed)
      ensures o.Failed? ==> Drifts(old(Now()), Now())
    {
      Drift();
      if * { Fault(); return Crashed; } else if * { Fault(); return Failed; }
      disk := disk.(pending := None);
      book := book.(rest := installed);
      Record();
      if * { Fault(); return Crashed; }
      return Done;
    }

    /** Removes the journal of an attempt whose previous package is back. */
    method RemoveRestored() returns (o: Io)
      requires Valid() && Restores(Now(), Now().(disk := disk.(pending := None)))
      modifies this
      ensures Valid() && old(log) <= log
      ensures old(faults) <= faults && (o.Done? <==> faults == old(faults)) && helpers == old(helpers)
      ensures o.Done? ==> disk.pending.None? && installed == old(installed)
    {
      Drift();
      if * { Fault(); return Crashed; } else if * { Fault(); return Failed; }
      disk := disk.(pending := None);
      Record();
      if * { Fault(); return Crashed; }
      return Done;
    }

    // -------------------------------------------------------------- the installer and the health file

    method RunCandidate(p: Pending) returns (o: Io)
      requires Valid() && disk.pending.Some? && disk.pending.value.candidate == p.candidate
      requires disk.pending.value.stage != Rollback && VerifyFile(trust, disk.candidateMsi, p.candidate)
      requires ValidateMsi(disk.candidateMsi, p.candidate.version)
      requires disk.policy.Some? && disk.policy.value.cancellation == cancellation && helpers > 0
      modifies this
      ensures Valid() && old(log) <= log
      ensures old(faults) <= faults && (o.Done? <==> faults == old(faults))
      ensures disk == old(disk) && clock >= old(clock)
      ensures o.Done? ==> installed == p.candidate.version
      ensures !o.Crashed? ==> helpers == old(helpers) - 1
    {
      Drift();
      if * { Fault(); return Crashed; }
      var replaced: bool, ok: bool := *, *;
      if replaced || ok { installed := disk.candidateMsi.value.releaseVersion; }
      helpers := helpers - 1;
      book := book.(restored := false, runs := OneMore(book.runs));
      Record();
      if * { Fault(); return Crashed; }
      if !ok { Fault(); return Failed; }
      return Done;
    }

    method RunPrevious(p: Pending) returns (o: Io)
      requires Valid() && disk.pending.Some? && disk.pending.value.previous == p.previous
      requires disk.pending.value.stage == Rollback && VerifyFile(trust, disk.previousMsi, p.previous)
      requires ValidateMsi(disk.previousMsi, p.previous.version)
      modifies this
      ensures Valid() && old(log) <= log
      ensures old(faults) <= faults && (o.Done? <==> faults == old(faults)) && helpers == old(helpers)
      ensures disk == old(disk) && clock >= old(clock)
      ensures book.rest == old(book).rest
      ensures o.Done? ==> installed == p.previous.version && book.restored
    {
      Drift();
      if * { Fault(); return Crashed; }
      var replaced: bool, ok: bool := *, *;
      if replaced || ok { installed := disk.previousMsi.value.releaseVersion; }
      book := book.(restored := ok);
      Record();
      if * { Fault(); return Crashed; }
      if !ok { Fault(); return Failed; }
      return Done;
    }

    method Healthy(p: Pending) returns (good: bool)
      requires Valid() && disk.pending == Some(p)
      modifies this
      ensures Valid() && old(log) <= log
      ensures Drifts(old(Now()).(book := book), Now())
      ensures book == old(book).(seen := book.seen) && faults == old(faults)
      ensures good <==> Reported(Now(), p)
      ensures good ==> book.seen.Some? && Proves(book.seen.value, p)
      ensures Now() == log[|log|-1] && |log| > |old(log)|
    {
      Drift();
      good := && health.Some? && health.value.version == p.candidate.version
              && p.started <= health.value.at <= clock + 60;
      if good {
        book := book.(seen := health);
        Record();
      }
    }

    // -------------------------------------------------------------- the service

    /**
      A journal exists: confirm it, wait for health, or turn it into a rollback and hand it to the helper.
      `read` is the world in which the health file was read, `signedIn` whether anybody is signed in.
    */
    method Recover(signedIn: bool) returns (o: Io, ghost read: World)
      requires Valid() && disk.pending.Some?
      modifies this
      ensures Valid() && old(log) <= log && installed == old(installed)
      // Without a fault it is done, and a helper is on its way to whatever is marked for rollback.
      ensures old(faults) <= faults && (o.Done? <==> faults == old(faults))
      ensures o.Done? ==>
                helpers == old(helpers) + if disk.pending.Some? && disk.pending.value.stage == Rollback then 1 else 0
      // An interrupted installation, or a release that is not the candidate, is marked for rollback.
      ensures var p := old(disk).pending.value;
              o.Done? && !Waits(p, installed) ==> disk.pending == Some(p.(stage := Rollback))
      // A candidate reported healthy is confirmed, and only such a one.
      ensures var p := old(disk).pending.value;
              Waits(p, installed) ==>
                && read in log[|old(log)|..]
                && (Reported(read, p) && o.Done? ==> disk.pending.None?)
                && (!Reported(read, p) ==> disk.pending.Some?)
      // Otherwise it waits while nobody is signed in, then for five minutes, and is marked for rollback after that.
      ensures var p := old(disk).pending.value;
              Waits(p, installed) && !Reported(read, p) ==>
                && (!signedIn ==> o.Done? && disk.pending == Some(p))
                && (signedIn && o.Done? ==> disk.pending == Some(Aged(p, disk.pending.value.healthStarted, clock))
                                            && disk.pending.value.healthStarted.Some?
                                            && (p.healthStarted.Some? ==>
                                                  disk.pending.value.healthStarted == p.healthStarted))
    {
      JournalAlwaysRecoverable(trust, log, |log| - 1);
      var pending := disk.pending.value;
      read := Now();
      if pending.stage == AwaitingHealth && installed == pending.candidate.version {
        var late: bool;
        o, late, pending, read := Observe(pending, signedIn);
        if !late { return; }
      }
      o := GiveUp(pending);
    }

    /** The candidate runs: confirm it, or keep waiting for its report, which is `late` after five minutes. */
    method Observe(journal: Pending, signedIn: bool) returns (o: Io, late: bool, pending: Pending, ghost read: World)
      requires Valid() && disk.pending == Some(journal) && Waits(journal, installed)
      modifies this
      ensures Valid() && old(log) <= log && installed == old(installed) && helpers == old(helpers)
      ensures old(faults) <= faults && (o.Done? <==> faults == old(faults))
      ensures read in log[|old(log)|..] && (late ==> o.Done? && !Reported(read, journal) && signedIn)
      ensures Reported(read, journal) && o.Done? ==> disk.pending.None?
      ensures !Reported(read, journal) ==> disk.pending.Some?
      ensures !Reported(read, journal) && !signedIn ==> o.Done? && disk.pending == Some(journal)
      ensures !Reported(read, journal) && signedIn && o.Done? ==>
                && disk.pending == Some(pending) && pending == journal.(healthStarted := pending.healthStarted)
                && pending.healthStarted.Some? && (late <==> clock - pending.healthStarted.value >= 300)
                && (journal.healthStarted.Some? ==> pending.healthStarted == journal.healthStarted)
                && Continues(pending, pending.(stage := Rollback), clock)
    {
      JournalAlwaysRecoverable(trust, log, |log| - 1);
      pending, late := journal, false;
      var good := Healthy(pending);
      read := Now();
      if good {
        o := RemoveConfirmed();
        return;
      }
      if !signedIn { return Done, late, pending, read; }
      var start := if pending.healthStarted.Some? then pending.healthStarted.value else clock;
      pending := pending.(healthStarted := Some(start));
      o := SaveJournal(pending);
      late := o.Done? && clock - start >= 300;
    }

    /** Marks the journal for rollback; the helper finds everything it needs in it. */
    method GiveUp(journal: Pending) returns (o: Io)
      requires Valid() && disk.pending.Some? && Continues(disk.pending.value, journal.(stage := Rollback), clock)
      modifies this
      ensures Valid() && old(log) <= log && installed == old(installed) && disk.pending.Some?
      ensures old(faults) <= faults && (o.Done? <==> faults == old(faults))
      ensures o.Done? ==> && disk.pending == Some(journal.(stage := Rollback)) && helpers == old(helpers) + 1
                          && clock >= old(clock)
    {
      o := SaveJournal(journal.(stage := Rollback));
      if !o.Done? { return; }
      o := Handoff();
    }

    method Tick(net: Replies) returns (o: Io)
      requires Valid()
      modifies this
      ensures old(disk).pending.None? && (disk.pending.Some? || disk.policy != old(disk).policy) ==>
                Unsuspended(|old(log)|, old(cancellation))
      ensures Valid() && old(log) <= log && installed == old(installed)
      ensures old(disk).pending.None? && disk.pending.Some? ==>
                && Approved(trust, net, disk.pending.value, installed)
                && PolicyIsTheServers(net, old(disk).policy, old(cancellation))
                && (o.Done? ==> helpers == old(helpers) + 1)
      ensures old(disk).pending.Some? && !Waits(old(disk).pending.value, installed) && o.Done? ==>
                disk.pending == Some(old(disk).pending.value.(stage := Rollback))
      // Without a fault it deals with a journal, and without a journal it fails or opens none for a reason only.
      ensures old(faults) <= faults && (faults == old(faults) ==> !o.Crashed?)
      ensures old(disk).pending.Some? && faults == old(faults) ==> o.Done?
      ensures old(disk).pending.None? && faults == old(faults) && o.Failed? ==>
                MustFail(trust, net, old(disk), old(cancellation), installed)
      ensures old(disk).pending.None? && o.Done? && disk.pending.None? ==>
                cancellation != old(cancellation) || NothingToDo(net, old(disk).attempts, old(clock))
    {
      if disk.pending.Some? {
        ghost var read;
        o, read := Recover(net.signedIn);
        return;
      }
      if net.server.None? || net.demo { return Done; }
      o := Ask(net);
    }

    /** Asks the server of an enrolled client, and follows its policy. */
    method Ask(net: Replies) returns (o: Io)
      requires Valid() && disk.pending.None? && net.server.Some? && !net.demo
      modifies this
      // A policy is saved only if updates were not suspended meanwhile, and the newest is in force for a journal.
      ensures disk.pending.Some? || disk.policy != old(disk).policy ==> Unsuspended(|old(log)|, old(cancellation))
      ensures disk.pending.Some? ==>
                && net.first.Some? && var first := PolicyInForce(old(disk).policy, old(cancellation), net.first.value);
                && first.Some?
                && disk.policy == PolicyAfter(net, Some(SavedPolicy(first.value, old(cancellation))), old(cancellation))
      ensures Valid() && old(log) <= log && installed == old(installed)
      ensures disk.pending.Some? ==>
                && Approved(trust, net, disk.pending.value, installed)
                && PolicyIsTheServers(net, old(disk).policy, old(cancellation))
                && (o.Done? ==> helpers == old(helpers) + 1)
      ensures old(faults) <= faults && (faults == old(faults) ==> !o.Crashed?)
      ensures faults == old(faults) && o.Failed? ==> MustFail(trust, net, old(disk), old(cancellation), installed)
      ensures o.Done? && disk.pending.None? ==>
                cancellation != old(cancellation) || NothingToDo(net, old(disk).attempts, old(clock))
    {
      var suspended := cancellation;
      var policy := if disk.policy.Some? && disk.policy.value.cancellation == suspended
                    then Some(disk.policy.value.policy) else None;
      Drift();
      if net.first.None? { return Failed; }
      if cancellation != suspended { return Done; }
      o := Follow(net, policy, suspended);
    }

    /** The server has answered: keep its policy, and go by it. */
    method Follow(net: Replies, saved: Option<Policy>, suspended: Option<string>) returns (o: Io)
      requires Valid() && disk.pending.None? && net.server.Some? && !net.demo && net.first.Some?
      requires saved == if disk.policy.Some? && disk.policy.value.cancellation == suspended
                        then Some(disk.policy.value.policy) else None
      requires cancellation == suspended
      modifies this
      ensures Valid() && old(log) <= log && installed == old(installed)
      ensures disk.pending.Some? || disk.policy != old(disk).policy ==> Unsuspended(|old(log)| - 1, suspended)
      ensures disk.pending.Some? ==>
                && var first := PolicyInForce(old(disk).policy, suspended, net.first.value);
                && first.Some? && disk.policy == PolicyAfter(net, Some(SavedPolicy(first.value, suspended)), suspended)
      ensures disk.pending.Some? ==>
                && Approved(trust, net, disk.pending.value, installed)
                && PolicyIsTheServers(net, old(disk).policy, suspended)
                && (o.Done? ==> helpers == old(helpers) + 1)
      ensures old(faults) <= faults && (faults == old(faults) ==> !o.Crashed?)
      ensures faults == old(faults) && o.Failed? ==> MustFail(trust, net, old(disk), suspended, installed)
      ensures o.Done? && disk.pending.None? ==>
                cancellation != suspended || NothingToDo(net, old(disk).attempts, old(clock))
    {
      var offer, policy := net.first.value, saved;
      assert log[|old(log)| - 1].cancellation == suspended;
      if offer.policy.Some? {
        o := SavePolicy(SavedPolicy(offer.policy.value, suspended));
        if !o.Done? { return; }
        policy := offer.policy;
      }
      if policy.None? || policy.value.server != net.server.value { return Failed; }
      if offer.upToDate || (offer.push.None? && !net.windowOpen) { return Done; }
      if offer.update.None? { return Failed; }
      o := Update(net, offer.update.value, offer.push, suspended);
    }

    /** The forward half of a tick: budget, both installers, the recheck, then attempt record and journal. */
    method Update(net: Replies, candidate: Artifact, push: Option<string>, suspended: Option<string>) returns (o: Io)
      requires Valid() && disk.pending.None?
      modifies this
      ensures disk.pending.Some? ==> disk.policy == PolicyAfter(net, old(disk).policy, suspended)
      ensures disk.pending.Some? || disk.policy != old(disk).policy ==> Unsuspended(|old(log)|, suspended)
      ensures Valid() && old(log) <= log && installed == old(installed)
      ensures disk.pending.Some? ==>
                && disk.pending.value.candidate == candidate && ValidateOffer(trust, candidate, installed)
                && net.previous == Some(disk.pending.value.previous) && HasWayBack(trust, net, installed)
                && trust.hasKey && StillOffered(net, candidate)
      ensures Spent(Budget(old(disk).attempts, candidate.version, push), old(clock)) ==> disk == old(disk)
      ensures o.Done? && disk.pending.None? ==>
                || Spent(Budget(old(disk).attempts, candidate.version, push), old(clock))
                || cancellation != suspended || !StillOffered(net, candidate)
      ensures o.Done? && disk.pending.Some? ==> helpers == old(helpers) + 1
      // Without a fault it fails for one of these reasons only.
      ensures old(faults) <= faults && (faults == old(faults) ==> !o.Crashed?)
      ensures faults == old(faults) && o.Failed? ==>
                net.second.None? || !Takable(trust, net, old(disk), candidate, installed)
    {
      if !ValidateOffer(trust, candidate, installed) { return Failed; }
      var attempts := Budget(disk.attempts, candidate.version, push);
      if attempts.count >= MAX_ATTEMPTS || clock < attempts.retryAt { return Done; }
      if !trust.hasKey { return Failed; }
      if net.previous.None? { return Failed; }
      var previous := net.previous.value;
      if previous.version != installed || !ValidateOffer(trust, previous, "") { return Failed; }
      o := StageInstallers(previous, net.previousBody, candidate, net.candidateBody);
      if !o.Done? { return; }
      if cancellation != suspended { return Done; }
      o := Recheck(net, previous, candidate, attempts, push, suspended);
    }

    /** After the downloads the server is asked again; what it no longer offers is not installed. */
    method Recheck(net: Replies, previous: Artifact, candidate: Artifact, attempts: Attempts, push: Option<string>,
                   suspended: Option<string>) returns (o: Io)
      requires Valid() && disk.pending.None?
      requires VerifyFile(trust, disk.previousMsi, previous) && ValidateMsi(disk.previousMsi, previous.version)
      requires VerifyFile(trust, disk.candidateMsi, candidate) && ValidateMsi(disk.candidateMsi, candidate.version)
      requires previous.version == installed && IsVersionUpgrade(trust, candidate.version, installed)
      requires attempts == Budget(disk.attempts, candidate.version, push)
      requires attempts.count < MAX_ATTEMPTS && attempts.retryAt <= clock
      modifies this
      // It is begun under the newest policy, and a policy is saved, only if updates were not suspended meanwhile.
      ensures disk.pending.Some? ==> disk.policy == PolicyAfter(net, old(disk).policy, suspended)
      ensures disk.pending.Some? || disk.policy != old(disk).policy ==> Unsuspended(|old(log)|, suspended)
      ensures Valid() && old(log) <= log && installed == old(installed)
      ensures disk.pending.Some? ==>
                && disk.pending.value.candidate == candidate && disk.pending.value.previous == previous
                && StillOffered(net, candidate)
      ensures o.Done? && disk.pending.None? ==> cancellation != suspended || !StillOffered(net, candidate)
      ensures o.Done? && disk.pending.Some? ==> helpers == old(helpers) + 1
      ensures old(faults) <= faults && (faults == old(faults) ==> !o.Crashed? && (o.Failed? ==> net.second.None?))
    {
      Drift();
      if net.second.None? { return Failed; }
      var recheck := net.second.value;
      if cancellation != suspended { return Done; }
      if !net.stillEnrolled { return Done; }
      if recheck.policy.Some? {
        o := SavePolicy(SavedPolicy(recheck.policy.value, suspended));
        if !o.Done? { return; }
      }
      if || recheck.upToDate || recheck.update.None?
         || recheck.update.value.sha256 != candidate.sha256 || recheck.update.value.version != candidate.version
         || (recheck.push.None? && !net.windowStillOpen)
      {
        return Done;
      }
      o := Begin(previous, candidate, attempts, push);
    }

    /** Never replace the application without a verified full installer to go back to. */
    method StageInstallers(previous: Artifact, previousBody: Option<Package>,
                           candidate: Artifact, candidateBody: Option<Package>) returns (o: Io)
      requires Valid() && disk.pending.None?
      modifies this
      ensures disk.policy == old(disk).policy
      ensures Valid() && old(log) <= log && disk.pending.None? && installed == old(installed)
      ensures old(faults) <= faults && (o.Done? ==> faults == old(faults)) && helpers == old(helpers)
      ensures faults == old(faults) ==>
                o == if Stageable(trust, old(disk), previous, previousBody, candidate, candidateBody)
                     then Done else Failed
      ensures o.Done? ==>
                && VerifyFile(trust, disk.previousMsi, previous) && ValidateMsi(disk.previousMsi, previous.version)
                && VerifyFile(trust, disk.candidateMsi, candidate) && ValidateMsi(disk.candidateMsi, candidate.version)
                && Drifts(old(Now()).(disk := old(disk).(previousMsi := disk.previousMsi,
                                                         candidateMsi := disk.candidateMsi)), Now())
    {
      if !VerifyFile(trust, disk.previousMsi, previous) {
        o := DownloadPrevious(previous, previousBody);
        if !o.Done? { return; }
      }
      if !ValidateMsi(disk.previousMsi, previous.version) { return Failed; }
      o := DownloadCandidate(candidate, candidateBody);
      if !o.Done? { return; }
      if !ValidateMsi(disk.candidateMsi, candidate.version) { return Failed; }
    }

    /** Spends an attempt and opens the journal, in that order. */
    method Begin(previous: Artifact, candidate: Artifact, budget: Attempts, push: Option<string>) returns (o: Io)
      requires Valid() && disk.pending.None?
      requires VerifyFile(trust, disk.previousMsi, previous) && ValidateMsi(disk.previousMsi, previous.version)
      requires VerifyFile(trust, disk.candidateMsi, candidate) && ValidateMsi(disk.candidateMsi, candidate.version)
      requires previous.version == installed && IsVersionUpgrade(trust, candidate.version, installed)
      requires budget == Budget(disk.attempts, candidate.version, push)
      requires budget.count < MAX_ATTEMPTS && budget.retryAt <= clock
      modifies this
      ensures disk.policy == old(disk).policy
      ensures Valid() && old(log) <= log && installed == old(installed)
      ensures old(faults) <= faults && (o.Done? <==> faults == old(faults))
      ensures o.Done? ==> disk.pending.Some? && helpers == old(helpers) + 1
      // A journal is opened only with the attempt already on disk.
      ensures disk.pending.Some? ==>
                && disk.pending.value.previous == previous && disk.pending.value.candidate == candidate
                && |book.starts| == |old(book).starts| + 1
                && disk.attempts == Some(book.starts[|old(book).starts|].attempts)
    {
      StartsAlwaysBudgeted(trust, log, |log| - 1);
      var now := clock;
      var attempts := budget.(count := budget.count + 1, retryAt := now + RETRY_SECONDS);
      o := SaveAttempts(attempts, push, now);
      if !o.Done? { return; }
      assert |book.starts| - 1 !in book.journals;
      o := OpenJournal(Pending(previous, candidate, Installing, clock, None, []));
      if !o.Done? { return; }
      o := Handoff();
    }

    // -------------------------------------------------------------- the helper

    /** A helper's whole life: it acts on the journal and is gone. */
    method Help(desktop: Desktop) returns (o: Io)
      requires Valid() && helpers > 0
      modifies this
      ensures Valid() && old(log) <= log
      // Without a fault, or with faults it survives, it is gone; without any it settles every journal.
      ensures !o.Crashed? ==> helpers == old(helpers) - 1
      ensures old(faults) <= faults
      ensures faults == old(faults) && old(disk).pending.Some? && trust.hasKey ==> o.Done?
    {
      var ran;
      ghost var quit, looks;
      o, ran, quit, looks := Apply(desktop);
      if !ran { EndHelper(); }
    }

    /** `ran`: the candidate's installer was run. `quit` is the world in which the installation ended. */
    method Apply(desktop: Desktop) returns (o: Io, ran: bool, ghost quit: World, ghost looks: seq<World>)
      requires Valid() && helpers > 0
      modifies this
      ensures Valid() && old(log) <= log
      // A journal marked for rollback is settled by one helper that meets no error.
      ensures o.Done? && old(disk).pending.Some? && old(disk).pending.value.stage == Rollback ==>
                disk.pending.None? && installed == book.rest == old(book).rest
      // A helper that meets no error leaves the candidate, or the release at rest with no journal.
      ensures o.Done? ==>
                && old(disk).pending.Some?
                && (|| installed == old(disk).pending.value.candidate.version
                    || (disk.pending.None? && installed == book.rest == old(book).rest))
      // Nothing but a fault keeps it from that, nor from the candidate unless it must be given up.
      ensures old(faults) <= faults
      ensures faults == old(faults) && old(disk).pending.Some? && trust.hasKey ==> o.Done?
      ensures old(disk).pending.None? || !trust.hasKey ==> o.Failed? && Now() == old(Now())
      ensures faults == old(faults) && o.Done? && old(disk).pending.value.stage != Rollback
              && installed != old(disk).pending.value.candidate.version ==>
                || !Installable(trust, old(disk)) || (!ran && Suspended(quit)) || (ran && Unseen(looks))
      ensures !o.Crashed? ==> helpers == old(helpers) - if ran then 1 else 0
      ensures !ran ==> helpers == old(helpers)
    {
      JournalAlwaysRecoverable(trust, log, |log| - 1);
      ran, quit, looks := false, Now(), [];
      if disk.pending.None? { return Failed, ran, quit, looks; }
      var pending := disk.pending.value;
      if !trust.hasKey { return Failed, ran, quit, looks; }
      // The journal invariant: the way back is never refused by verification.
      assert VerifyFile(trust, disk.previousMsi, pending.previous);
      assert ValidateMsi(disk.previousMsi, pending.previous.version);
      if pending.stage == Rollback {
        o := RollBack(pending);
      } else {
        o, pending, ran, looks := Install(pending, desktop);
        quit := Now();
        if o.Failed? {
          o := RollBack(pending);
        }
      }
    }

    /** `looks` are the worlds in which the health file was read. */
    method Install(journal: Pending, desktop: Desktop)
      returns (o: Io, pending: Pending, ran: bool, ghost looks: seq<World>)
      requires Valid() && disk.pending == Some(journal) && journal.stage != Rollback && helpers > 0
      modifies this
      ensures Valid() && old(log) <= log
      ensures o.Failed? ==> disk.pending.Some? && Continues(disk.pending.value, pending, clock)
      ensures o.Done? ==> installed == journal.candidate.version
      ensures pending.previous == journal.previous
      // Without a fault it fails only on a bad package or, before the installer has run, on suspended updates.
      ensures old(faults) <= faults && (faults == old(faults) ==> !o.Crashed?)
      ensures faults == old(faults) && o.Failed? && !ran ==> !Installable(trust, old(disk)) || Suspended(Now())
      ensures faults == old(faults) && o.Failed? && ran ==> Unseen(looks)
      ensures if ran then !o.Crashed? ==> helpers == old(helpers) - 1 else helpers == old(helpers)
      // The journal left behind awaits health, with the start of the attempt and everybody to be resumed.
      ensures o.Done? && disk.pending.Some? ==> disk.pending == Some(pending) && pending.stage == AwaitingHealth
      ensures o.Done? && desktop.signedIn ==> pending.healthStarted.Some?
      ensures o.Done? ==> && faults == old(faults) && ran && pending.started == old(clock)
                          && pending.sessions == Joined(desktop.sessions, desktop.stopped)
    {
      pending, ran, looks := journal, false, [];
      JournalAlwaysRecoverable(trust, log, |log| - 1);
      if !VerifyFile(trust, disk.candidateMsi, pending.candidate) { return Failed, pending, ran, looks; }
      if !ValidateMsi(disk.candidateMsi, pending.candidate.version) { return Failed, pending, ran, looks; }
      o, pending := Prepare(pending, desktop);
      if !o.Done? { return; }
      if disk.policy.None? || disk.policy.value.cancellation != cancellation { return Failed, pending, ran, looks; }
      ran := true;
      o := RunCandidate(pending);
      if !o.Done? { return; }
      o, pending, looks := Launch(pending, desktop);
    }

    /** Stops the clients, with the start of the attempt and their sessions in the journal. */
    method Prepare(journal: Pending, desktop: Desktop) returns (o: Io, pending: Pending)
      requires Valid() && disk.pending == Some(journal) && journal.stage != Rollback && journal.started <= clock
      modifies this
      ensures Valid() && old(log) <= log && helpers == old(helpers) && installed == old(installed)
      ensures old(faults) <= faults && (o.Done? <==> faults == old(faults))
      ensures o.Failed? ==> disk.pending.Some? && Continues(disk.pending.value, pending, clock)
      ensures pending.previous == journal.previous
      ensures o.Done? ==>
                && pending == journal.(sessions := Joined(desktop.sessions, desktop.stopped), started := old(clock))
                && disk == old(disk).(pending := Some(pending)) && pending.started <= clock
    {
      pending := journal.(sessions := desktop.sessions, started := clock);
      o := SaveJournal(pending);
      if !o.Done? { return; }
      if * { Fault(); return Failed, pending; }               // the clients could not be stopped
      pending := pending.(sessions := Joined(pending.sessions, desktop.stopped));
      o := SaveJournal(pending);
    }

    /** The candidate's installer succeeded: probe it, journal that health is awaited, wait for it. */
    method Launch(journal: Pending, desktop: Desktop) returns (o: Io, pending: Pending, ghost looks: seq<World>)
      requires Valid() && disk.pending == Some(journal) && journal.stage != Rollback
      requires installed == journal.candidate.version && journal.started <= clock
      modifies this
      ensures Valid() && old(log) <= log && helpers == old(helpers)
      ensures o.Failed? ==> disk.pending.Some? && Continues(disk.pending.value, pending, clock)
      ensures o.Done? ==> installed == journal.candidate.version
      ensures pending.previous == journal.previous
      ensures old(faults) <= faults && (faults == old(faults) ==> !o.Crashed? && (o.Failed? ==> Unseen(looks)))
      ensures o.Done? ==> && faults == old(faults) && pending.started == journal.started
                          && pending.sessions == journal.sessions && (looks == [] <==> !desktop.signedIn)
      ensures o.Done? && disk.pending.Some? ==> disk.pending == Some(pending) && pending.stage == AwaitingHealth
      ensures o.Done? && desktop.signedIn ==> pending.healthStarted.Some?
    {
      pending, looks := journal, [];
      if * { Fault(); return Failed, pending, looks; }        // a probe of the installed candidate failed
      pending := pending.(stage := AwaitingHealth);
      o := SaveJournal(pending);
      if !o.Done? { return; }
      if !desktop.signedIn { return Done, pending, looks; }
      pending := pending.(healthStarted := Some(clock));
      o := SaveJournal(pending);
      if !o.Done? { return; }
      o, looks := AwaitConfirmation(pending, desktop.leaves);
    }

    /** Polls the health file 150 times, two seconds apart; `looks` are the worlds in which it was read. */
    method AwaitConfirmation(pending: Pending, leaves: nat) returns (o: Io, ghost looks: seq<World>)
      requires Valid() && disk.pending == Some(pending) && pending.stage == AwaitingHealth
      requires installed == pending.candidate.version && pending.started <= clock
      modifies this
      ensures Valid() && old(log) <= log && installed == old(installed) && helpers == old(helpers)
      ensures 1 <= |looks| <= 150
      ensures forall k | 0 <= k < |looks| :: looks[k] in log[|old(log)|..] && looks[k].disk.pending == Some(pending)
      // The first report found ends the polling, and is confirmed unless the journal cannot be removed.
      ensures forall k | 0 <= k < |looks| - 1 :: !Reported(looks[k], pending)
      ensures Reported(looks[|looks|-1], pending) && o.Done? ==> disk.pending.None?
      ensures !Reported(looks[|looks|-1], pending) ==> disk.pending == Some(pending)
      // Without one it ends when nobody is signed in any more, and fails after 150 polls; or a fault stops it.
      ensures old(faults) <= faults && (faults == old(faults) ==> !o.Crashed?) && (o.Done? ==> faults == old(faults))
      ensures faults == old(faults) && !Reported(looks[|looks|-1], pending) ==>
                if leaves < 150 then o.Done? && |looks| == leaves + 1 else o.Failed? && |looks| == 150
      ensures faults == old(faults) && o.Failed? ==> Unseen(looks)
      ensures o.Failed? ==> disk.pending == Some(pending) && pending.started <= clock
    {
      looks := [];
      for polls := 0 to 150
        invariant Valid() && old(log) <= log && |looks| == polls <= leaves
        invariant disk.pending == Some(pending) && installed == pending.candidate.version
        invariant installed == old(installed) && pending.started <= clock && faults == old(faults)
        invariant helpers == old(helpers)
        invariant forall k | 0 <= k < |looks| :: && looks[k] in log[|old(log)|..] && !Reported(looks[k], pending)
                                                 && looks[k].disk.pending == Some(pending)
      {
        ghost var before := log;
        var good := Healthy(pending);
        looks := looks + [Now()];
        assert log[|log|-1] in log[|old(log)|..];
        StillLogged(|old(log)|, before, looks[..polls]);
        if good {
          ghost var polled := log;
          o := RemoveConfirmed();
          StillLogged(|old(log)|, polled, looks);
          return;
        }
        if polls >= leaves { return Done, looks; }
      }
      return Failed, looks;
    }

    /** Worlds logged before are still in the log. */
    lemma StillLogged(from: nat, before: seq<World>, looks: seq<World>)
      requires from <= |before| && before <= log
      requires forall k | 0 <= k < |looks| :: looks[k] in before[from..]
      ensures forall k | 0 <= k < |looks| :: looks[k] in log[from..]
    {
      forall k | 0 <= k < |looks|
        ensures looks[k] in log[from..]
      {
        var i :| 0 <= i < |before[from..]| && before[from..][i] == looks[k];
        assert log[from..][i] == looks[k];
      }
    }

    method RollBack(journal: Pending) returns (o: Io)
      requires Valid() && disk.pending.Some? && Continues(disk.pending.value, journal, clock)
      modifies this
      ensures Valid() && old(log) <= log
      ensures o.Done? ==> disk.pending.None? && installed == journal.previous.version
      ensures o.Done? ==> installed == book.rest == old(book).rest
      ensures old(faults) <= faults && (o.Done? <==> faults == old(faults)) && helpers == old(helpers)
    {
      JournalAlwaysRecoverable(trust, log, |log| - 1);
      var pending := journal.(stage := Rollback);
      o := SaveJournal(pending);
      if !o.Done? { return; }
      o := Reinstall(pending);
      if !o.Done? { return; }
      o := RemoveRestored();
      JournalAlwaysRecoverable(trust, log, |log| - 1);
    }

    /** Stops the clients, runs the installer of the previous release, and probes it. */
    method Reinstall(p: Pending) returns (o: Io)
      requires Valid() && disk.pending == Some(p) && p.stage == Rollback
      requires VerifyFile(trust, disk.previousMsi, p.previous) && ValidateMsi(disk.previousMsi, p.previous.version)
      modifies this
      ensures Valid() && old(log) <= log && disk == old(disk) && helpers == old(helpers)
      ensures o.Done? ==> installed == p.previous.version && book.restored
      ensures book.rest == old(book).rest
      ensures old(faults) <= faults && (o.Done? <==> faults == old(faults))
    {
      if * { Fault(); return Failed; }                        // the clients could not be stopped
      o := RunPrevious(p);
      if !o.Done? { return; }
      if * { Fault(); return Failed; }                        // the probe of the installed release failed
    }

    // -------------------------------------------------------------- whole lives

    /** Any sequence of services and helpers, each possibly cut short, is one run. */
    method Live(visits: seq<Visit>)
      requires Valid() && Lawful(trust)
      modifies this
      ensures Valid() && old(log) <= log
      ensures JournalInv(trust, Now())
      ensures old(disk).pending.None? && disk.pending.None? && trust.known(old(installed)) ==>
                NotBefore(trust, installed, old(installed))
    {
      for i := 0 to |visits|
        invariant Valid() && old(log) <= log
      {
        var outcome := Done;
        match visits[i]
        case Service(replies) => outcome := Tick(replies);
        case Helper(desktop) => if helpers > 0 { outcome := Help(desktop); }
      }
      JournalAlwaysRecoverable(trust, log, |log| - 1);
      if old(disk).pending.None? && disk.pending.None? && trust.known(old(installed)) {
        ghost var first := |old(log)| - 1;
        assert log[first] == old(log)[first];
        InstalledNeverGoesDown(trust, log, first, |log| - 1);
      }
    }
  }
}
