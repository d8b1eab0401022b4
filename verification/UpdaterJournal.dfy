/**
  The durable side of the Windows updater: what is on disk, which package is installed,
  and every change the service and its detached helper may make to them.

  A run is a sequence of worlds. The service and its helpers can die between any two worlds,
  so nothing that lives only in a process is part of a world but how many helpers there are. `Book` holds
  history variables
  that no code reads; they exist to state properties.
*/
module UpdaterJournal {
  import opened Common

  const MAX_BYTES: nat := 512 * 1024 * 1024
  const RETRY_SECONDS := 1800
  const MAX_ATTEMPTS := 3

  datatype Artifact = Artifact(
    releaseId: string, version: string, sha256: string, signature: string, sizeBytes: nat, downloadUrl: string)

  /** What a file at an installer path holds; `ours` says product code and platform are BetterFrame's. */
  datatype Package = Package(sizeBytes: nat, digest: string, ours: bool, releaseVersion: string)

  datatype Stage = Installing | AwaitingHealth | Rollback

  datatype Pending = Pending(
    previous: Artifact, candidate: Artifact, stage: Stage, started: int,
    healthStarted: Option<int>, sessions: seq<nat>)

  datatype Attempts = Attempts(version: string, count: nat, request: Option<string>, retryAt: int)

  datatype Policy = Policy(server: string, selection: string)
  datatype SavedPolicy = SavedPolicy(policy: Policy, cancellation: Option<string>)
  datatype Health = Health(version: string, at: int)

  datatype Disk = Disk(
    pending: Option<Pending>, attempts: Option<Attempts>, policy: Option<SavedPolicy>,
    previousMsi: Option<Package>, candidateMsi: Option<Package>)

  /** One recorded installation attempt: the push request offered, the clock read, the record saved. */
  datatype Start = Start(push: Option<string>, at: int, attempts: Attempts)

  datatype Book = Book(
    rest: string,               // the last release confirmed, or restored, with no journal left
    starts: seq<Start>,         // every attempt record ever saved
    journals: seq<nat>,         // for each journal ever opened, the attempt it belongs to
    openedAt: int,                // clock value the newest journal was opened with
    seen: Option<Health>,       // health report the newest journal was last judged healthy by
    restored: bool,             // previous package reinstalled since anything else ran
    waiting: seq<nat>,          // for each journal, the helpers still to run when it was opened
    launched: bool,             // the newest journal's own helper was launched
    runs: seq<nat>)             // for each journal, how often its candidate's installer ran

  /** `helpers` counts the helper processes that have been launched and may still run a candidate's installer. */
  datatype World = World(
    disk: Disk, installed: string, health: Option<Health>, cancellation: Option<string>, clock: int,
    helpers: nat, book: Book)

  /** Signature checking and version precedence, which the updater takes from libraries. */
  datatype Trust = Trust(
    hasKey: bool,
    signed: (string, string) -> bool,
    known: string -> bool,
    newer: (string, string) -> bool,
    trim: string -> string)

  ghost predicate Lawful(t: Trust) {
    && (forall a :: !t.newer(a, a))
    && (forall a, b, c :: t.newer(a, b) && t.newer(b, c) ==> t.newer(a, c))
  }

  predicate IsVersionUpgrade(t: Trust, candidate: string, installed: string) {
    && t.known(candidate)
    && if t.known(installed) then t.newer(candidate, installed) else t.trim(candidate) != t.trim(installed)
  }

  predicate VerifyFile(t: Trust, file: Option<Package>, info: Artifact) {
    && file.Some?
    && file.value.sizeBytes == info.sizeBytes <= MAX_BYTES
    && file.value.digest == info.sha256
    && t.signed(info.sha256, info.signature)
  }

  predicate ValidateMsi(file: Option<Package>, version: string) {
    file.Some? && file.value.ours && file.value.releaseVersion == version
  }

  predicate IsReleaseChar(c: char) {
    'a' <= c <= 'z' || 'A' <= c <= 'Z' || '0' <= c <= '9' || c == '-'
  }

  predicate ValidateOffer(t: Trust, info: Artifact, current: string) {
    && IsVersionUpgrade(t, info.version, current)
    && 0 < info.sizeBytes <= MAX_BYTES
    && info.releaseId != ""
    && (forall i | 0 <= i < |info.releaseId| :: IsReleaseChar(info.releaseId[i]))
    && (info.downloadUrl == "/api/kiosk/firmware/download/" + info.releaseId
        || info.downloadUrl == "/api/firmware/public/download/" + info.releaseId)
  }

  /** The attempt budget an offer starts from: the saved one, or a fresh one for a new version or push. */
  function Budget(saved: Option<Attempts>, version: string, push: Option<string>): Attempts {
    var a := if saved.Some? then saved.value else Attempts("", 0, None, 0);
    if a.version != version || (push.Some? && a.request != push)
    then Attempts(version, 0, push, 0)
    else a
  }

  /** All three attempts used up, or the last one less than half an hour ago. */
  predicate Spent(a: Attempts, now: int) {
    a.count >= MAX_ATTEMPTS || now < a.retryAt
  }

  function Spend(a: Attempts, now: int): Attempts {
    a.(count := a.count + 1, retryAt := now + RETRY_SECONDS)
  }

  // ---------------------------------------------------------------- steps

  /** Time passes; the client rewrites its health report; the operator suspends or resumes updates. */
  ghost predicate Drifts(w: World, w': World) {
    && w' == w.(clock := w'.clock, health := w'.health, cancellation := w'.cancellation)
    && w.clock <= w'.clock
  }

  ghost predicate SavesPolicy(w: World, w': World) {
    w' == w.(disk := w.disk.(policy := w'.disk.policy))
  }

  ghost predicate StagesPackage(w: World, w': World) {
    && w.disk.pending.None?
    && w' == w.(disk := w.disk.(previousMsi := w'.disk.previousMsi, candidateMsi := w'.disk.candidateMsi))
  }

  ghost predicate StartsAttempt(w: World, w': World, s: Start) {
    && w.disk.pending.None?
    && s.at <= w.clock
    && (var b := Budget(w.disk.attempts, s.attempts.version, s.push);
        b.count < MAX_ATTEMPTS && b.retryAt <= s.at && s.attempts == Spend(b, s.at))
    && w' == w.(disk := w.disk.(attempts := Some(s.attempts)),
                book := w.book.(starts := w.book.starts + [s]))
  }

  ghost predicate OpensJournal(t: Trust, w: World, w': World, p: Pending) {
    && w.disk.pending.None?
    && p.stage == Installing && p.started <= w.clock
    && VerifyFile(t, w.disk.previousMsi, p.previous) && ValidateMsi(w.disk.previousMsi, p.previous.version)
    && VerifyFile(t, w.disk.candidateMsi, p.candidate) && ValidateMsi(w.disk.candidateMsi, p.candidate.version)
    && p.previous.version == w.installed
    && IsVersionUpgrade(t, p.candidate.version, w.installed)
    && var n := |w.book.starts|;
    && 0 < n && w.book.starts[n-1].attempts.version == p.candidate.version
    && w.book.starts[n-1].at <= p.started
    && n - 1 !in w.book.journals
    && w' == w.(disk := w.disk.(pending := Some(p)),
                book := OpenedBook(w, p))
  }

  /** The history variables of a journal just opened. */
  function OpenedBook(w: World, p: Pending): Book
    requires w.book.starts != []
  {
    w.book.(journals := w.book.journals + [|w.book.starts| - 1], openedAt := p.started, seen := None, restored := false,
            waiting := w.book.waiting + [w.helpers], launched := false, runs := w.book.runs + [0])
  }

  /** One more run under the newest journal. */
  function OneMore(runs: seq<nat>): seq<nat> {
    if runs == [] then runs else runs[|runs| - 1 := runs[|runs| - 1] + 1]
  }

  /** The service launches a helper: for the journal it has just opened, once, or for one marked for rollback. */
  ghost predicate LaunchesHelper(w: World, w': World) {
    && w.disk.pending.Some?
    && (w.disk.pending.value.stage == Rollback || (w.disk.pending.value.stage == Installing && !w.book.launched))
    && w' == w.(helpers := w.helpers + 1, book := w.book.(launched := true))
  }

  /** A helper ends, or dies, without having run the candidate's installer. */
  ghost predicate HelperEnds(w: World, w': World) {
    w.helpers > 0 && w' == w.(helpers := w.helpers - 1)
  }

  ghost predicate Continues(p: Pending, q: Pending, clock: int) {
    && q.previous == p.previous && q.candidate == p.candidate
    && p.started <= q.started <= clock
    && (p.stage == Rollback ==> q.stage == Rollback) && (q.stage == Installing ==> p.stage == Installing)
  }

  ghost predicate RewritesJournal(w: World, w': World, p: Pending) {
    && w.disk.pending.Some? && Continues(w.disk.pending.value, p, w.clock)
    && w' == w.(disk := w.disk.(pending := Some(p)))
  }

  /** The candidate's installer runs; when it fails, either release may be what is left. */
  ghost predicate RunsCandidate(t: Trust, w: World, w': World) {
    && w.disk.pending.Some? && w.disk.pending.value.stage != Rollback && w.helpers > 0
    && VerifyFile(t, w.disk.candidateMsi, w.disk.pending.value.candidate)
    && ValidateMsi(w.disk.candidateMsi, w.disk.pending.value.candidate.version)
    && (w'.installed == w.installed || w'.installed == w.disk.candidateMsi.value.releaseVersion)
    && w' == w.(installed := w'.installed, helpers := w.helpers - 1,
                book := w.book.(restored := false, runs := OneMore(w.book.runs)))
  }

  ghost predicate RunsPrevious(t: Trust, w: World, w': World) {
    && w.disk.pending.Some? && w.disk.pending.value.stage == Rollback
    && VerifyFile(t, w.disk.previousMsi, w.disk.pending.value.previous)
    && (w'.installed == w.installed || w'.installed == w.disk.previousMsi.value.releaseVersion)
    && (w'.book.restored ==> w'.installed == w.disk.previousMsi.value.releaseVersion)
    && w' == w.(installed := w'.installed, book := w.book.(restored := w'.book.restored))
  }

  ghost predicate Proves(h: Health, p: Pending) {
    h.version == p.candidate.version && p.started <= h.at
  }

  /** The health file reports the journal's candidate, since the attempt and no later than a minute from now. */
  ghost predicate Reported(w: World, p: Pending) {
    w.health.Some? && w.health.value.version == p.candidate.version && p.started <= w.health.value.at <= w.clock + 60
  }

  /** A process reads the health file and finds the journal's candidate healthy. */
  ghost predicate ObservesHealth(w: World, w': World) {
    && w.disk.pending.Some? && Reported(w, w.disk.pending.value)
    && w' == w.(book := w.book.(seen := w.health))
  }

  ghost predicate Confirms(w: World, w': World) {
    && w.disk.pending.Some? && w.disk.pending.value.stage == AwaitingHealth
    && w.installed == w.disk.pending.value.candidate.version
    && w.book.seen.Some? && Proves(w.book.seen.value, w.disk.pending.value)
    && w' == w.(disk := w.disk.(pending := None), book := w.book.(rest := w.installed))
  }

  ghost predicate Restores(w: World, w': World) {
    && w.disk.pending.Some? && w.disk.pending.value.stage == Rollback
    && w.book.restored
    && w' == w.(disk := w.disk.(pending := None))
  }

  ghost predicate Step(t: Trust, w: World, w': World) {
    || Drifts(w, w')
    || SavesPolicy(w, w')
    || StagesPackage(w, w')
    || (exists s :: StartsAttempt(w, w', s))
    || (exists p :: OpensJournal(t, w, w', p))
    || (exists p :: RewritesJournal(w, w', p))
    || LaunchesHelper(w, w')
    || HelperEnds(w, w')
    || RunsCandidate(t, w, w')
    || RunsPrevious(t, w, w')
    || ObservesHealth(w, w')
    || Confirms(w, w')
    || Restores(w, w')
  }

  /** A machine as set up: nothing journalled, nothing attempted, its installed release at rest. */
  ghost predicate Init(w: World) {
    && w.disk.pending.None? && w.disk.attempts.None?
    && w.helpers == 0 && w.book == Book(w.installed, [], [], w.book.openedAt, None, false, [], false, [])
  }

  ghost predicate IsRun(t: Trust, run: seq<World>) {
    && 0 < |run| && Init(run[0])
    && forall i | 0 < i < |run| :: Step(t, run[i-1], run[i])
  }

  lemma ExtendRun(t: Trust, run: seq<World>, w: World)
    requires IsRun(t, run) && Step(t, run[|run|-1], w)
    ensures IsRun(t, run + [w])
  {
    var longer := run + [w];
    forall i | 0 < i < |longer| ensures Step(t, longer[i-1], longer[i]) {
      if i < |run| {
        assert longer[i-1] == run[i-1] && longer[i] == run[i];
      }
    }
  }

  // ---------------------------------------------------------------- the journal invariant

  /** No journal: the installed release is at rest. Journal: the verified way back to that release is on disk. */
  ghost predicate JournalInv(t: Trust, w: World) {
    match w.disk.pending
    case None => w.installed == w.book.rest
    case Some(p) =>
      && VerifyFile(t, w.disk.previousMsi, p.previous)
      && ValidateMsi(w.disk.previousMsi, p.previous.version)
      && p.previous.version == w.book.rest
      && IsVersionUpgrade(t, p.candidate.version, w.book.rest)
      && (w.installed == p.previous.version || w.installed == p.candidate.version)
      && (w.book.restored ==> w.installed == p.previous.version)
      && w.book.openedAt <= p.started <= w.clock
  }

  lemma JournalInvStep(t: Trust, w: World, w': World)
    requires JournalInv(t, w) && Step(t, w, w')
    ensures JournalInv(t, w')
  {
    if p :| OpensJournal(t, w, w', p) {
    } else if p :| RewritesJournal(w, w', p) {
    } else if RunsCandidate(t, w, w') || RunsPrevious(t, w, w') {
    } else if Confirms(w, w') || Restores(w, w') {
    } else {
    }
  }

  /** Every world of every run, so after a crash anywhere, satisfies the journal invariant. */
  lemma {:induction false} JournalAlwaysRecoverable(t: Trust, run: seq<World>, i: nat)
    requires IsRun(t, run) && i < |run|
    ensures JournalInv(t, run[i])
  {
    if i > 0 {
      JournalAlwaysRecoverable(t, run, i - 1);
      JournalInvStep(t, run[i-1], run[i]);
    }
  }

  /** The journal goes away for one of two reasons only, and each leaves a release at rest. */
  lemma JournalClosesOnlyWhenSettled(t: Trust, run: seq<World>, i: nat)
    requires IsRun(t, run) && i + 1 < |run|
    requires run[i].disk.pending.Some? && run[i+1].disk.pending.None?
    ensures
      var p, w, w' := run[i].disk.pending.value, run[i], run[i+1];
      || (&& p.stage == AwaitingHealth && w.installed == p.candidate.version == w'.book.rest
          && w.book.seen.Some? && w.book.seen.value.version == p.candidate.version
          && w.book.openedAt <= p.started <= w.book.seen.value.at)
      || (&& p.stage == Rollback && w.book.restored
          && w.installed == p.previous.version == w.book.rest == w'.book.rest)
  {
    JournalAlwaysRecoverable(t, run, i);
    var w, w' := run[i], run[i+1];
    assert Step(t, w, w');
    assert Confirms(w, w') || Restores(w, w');
  }

  /** Written out: while a journal exists, a signed package of the release at rest is on disk. */
  lemma WayBackIsSigned(t: Trust, run: seq<World>, i: nat)
    requires IsRun(t, run) && i < |run| && run[i].disk.pending.Some?
    ensures
      var w, previous := run[i], run[i].disk.pending.value.previous;
      && w.disk.previousMsi.Some?
      && var file := w.disk.previousMsi.value;
      && file.ours && file.releaseVersion == previous.version == w.book.rest
      && file.digest == previous.sha256 && t.signed(file.digest, previous.signature)
      && file.sizeBytes == previous.sizeBytes <= 512 * 1024 * 1024
  {
    JournalAlwaysRecoverable(t, run, i);
  }

  ghost predicate Vouched(t: Trust, file: Option<Package>, info: Artifact, version: string) {
    && file.Some? && file.value.ours && file.value.releaseVersion == version
    && file.value.digest == info.sha256 && t.signed(file.value.digest, info.signature)
  }

  /** What is installed changes only to the release of a package on disk that a signature of the journal vouches for. */
  lemma OnlySignedPackagesInstall(t: Trust, run: seq<World>, i: nat)
    requires IsRun(t, run) && i + 1 < |run| && run[i+1].installed != run[i].installed
    ensures
      var w, version := run[i], run[i+1].installed;
      && w.disk.pending.Some?
      && (|| Vouched(t, w.disk.previousMsi, w.disk.pending.value.previous, version)
          || Vouched(t, w.disk.candidateMsi, w.disk.pending.value.candidate, version))
  {
    JournalAlwaysRecoverable(t, run, i);
    assert Step(t, run[i], run[i+1]);
    assert RunsCandidate(t, run[i], run[i+1]) || RunsPrevious(t, run[i], run[i+1]);
  }

  /** A new version or a new push request starts with all its attempts, and at once. */
  lemma NewOfferStartsFresh(saved: Option<Attempts>, version: string, push: Option<string>, now: int)
    requires saved.None? || saved.value.version != version || (push.Some? && saved.value.request != push)
    requires now >= 0
    ensures !Spent(Budget(saved, version, push), now)
    ensures Budget(saved, version, push).count == 0 && Budget(saved, version, push).version == version
  {
  }

  /** Nothing that a URL gives a meaning to, nor a dot that could climb out of a path. */
  predicate Plain(s: string) {
    forall i | 0 <= i < |s| :: s[i] !in {'\\', '?', '#', '.', '@', ' '}
  }

  lemma PlainJoin(prefix: string, id: string)
    requires "/api/" <= prefix && Plain(prefix) && Plain(id)
    ensures "/api/" <= prefix + id && Plain(prefix + id)
  {
    assert (prefix + id)[..5] == prefix[..5];
  }

  /** An offer is accepted exactly as an upgrade of at most 512 MB under a plain id at one of the two routes. */
  lemma OfferAcceptedExactly(t: Trust, info: Artifact, current: string)
    ensures ValidateOffer(t, info, current) <==>
              && t.known(info.version)
              && (t.known(current) ==> t.newer(info.version, current))
              && (!t.known(current) ==> t.trim(info.version) != t.trim(current))
              && 1 <= info.sizeBytes <= 512 * 1024 * 1024 && info.releaseId != ""
              && (forall i | 0 <= i < |info.releaseId| :: IsPlainIdChar(info.releaseId[i]))
              && info.downloadUrl in {"/api/kiosk/firmware/download/" + info.releaseId,
                                      "/api/firmware/public/download/" + info.releaseId}
  {
    var id := info.releaseId;
    assert forall i | 0 <= i < |id| :: IsReleaseChar(id[i]) <==> IsPlainIdChar(id[i]);
  }

  /** An ASCII letter, a digit or a hyphen. */
  predicate IsPlainIdChar(c: char) {
    97 <= Lower(c) as int <= 122 || 48 <= c as int <= 57 || c == '-'
  }

  /** A file verifies exactly with the recorded size, within the limit, the recorded digest and a signature of it. */
  lemma VerifiedExactly(t: Trust, file: Package, info: Artifact)
    ensures VerifyFile(t, Some(file), info) <==>
              && file.sizeBytes == info.sizeBytes && info.sizeBytes < 512 * 1024 * 1024 + 1
              && file.digest == info.sha256 && t.signed(file.digest, info.signature)
    ensures !VerifyFile(t, None, info)
  {
  }

  /** The address of an accepted offer is a plain server path: it names one file and nothing else. */
  lemma OfferAddressIsPlain(t: Trust, info: Artifact, current: string)
    requires ValidateOffer(t, info, current)
    ensures "/api/" <= info.downloadUrl && Plain(info.downloadUrl)
    ensures 1 <= info.sizeBytes <= 512 * 1024 * 1024 && info.releaseId != ""
  {
    assert Plain(info.releaseId);
    PlainJoin("/api/kiosk/firmware/download/", info.releaseId);
    PlainJoin("/api/firmware/public/download/", info.releaseId);
  }

  // ---------------------------------------------------------------- releases only move forward

  ghost predicate NotBefore(t: Trust, later: string, earlier: string) {
    later == earlier || t.newer(later, earlier)
  }

  lemma RestStep(t: Trust, w: World, w': World)
    requires JournalInv(t, w) && Step(t, w, w')
    ensures w'.book.rest == w.book.rest || IsVersionUpgrade(t, w'.book.rest, w.book.rest)
  {
  }

  lemma {:induction false} UpgradesKeepOrder(t: Trust, releases: seq<string>, i: nat, j: nat)
    requires Lawful(t) && i <= j < |releases| && t.known(releases[i])
    requires forall k | 0 < k < |releases| ::
               releases[k] == releases[k-1] || IsVersionUpgrade(t, releases[k], releases[k-1])
    ensures t.known(releases[j]) && NotBefore(t, releases[j], releases[i])
    decreases j
  {
    if i < j {
      UpgradesKeepOrder(t, releases, i, j - 1);
    }
  }

  lemma RestNeverGoesDown(t: Trust, run: seq<World>, i: nat, j: nat)
    requires IsRun(t, run) && Lawful(t) && i <= j < |run|
    requires t.known(run[i].book.rest)
    ensures t.known(run[j].book.rest) && NotBefore(t, run[j].book.rest, run[i].book.rest)
  {
    var releases := seq(|run|, k requires 0 <= k < |run| => run[k].book.rest);
    forall k | 0 < k < |run|
      ensures releases[k] == releases[k-1] || IsVersionUpgrade(t, releases[k], releases[k-1])
    {
      JournalAlwaysRecoverable(t, run, k - 1);
      RestStep(t, run[k-1], run[k]);
    }
    UpgradesKeepOrder(t, releases, i, j);
  }

  /** What is installed whenever no journal exists never goes down, whatever crashed in between. */
  lemma InstalledNeverGoesDown(t: Trust, run: seq<World>, i: nat, j: nat)
    requires IsRun(t, run) && Lawful(t) && i <= j < |run|
    requires run[i].disk.pending.None? && run[j].disk.pending.None? && t.known(run[i].installed)
    ensures NotBefore(t, run[j].installed, run[i].installed)
  {
    JournalAlwaysRecoverable(t, run, i);
    JournalAlwaysRecoverable(t, run, j);
    RestNeverGoesDown(t, run, i, j);
  }

  // ---------------------------------------------------------------- the retry budget

  ghost predicate SameOffer(a: Start, b: Start) {
    a.attempts.version == b.attempts.version && a.push == b.push
  }

  /** How an attempt relates to the one saved before it. */
  ghost predicate Successive(a: Start, b: Start) {
    SameOffer(a, b) ==> b.attempts.count == a.attempts.count + 1 && a.at + RETRY_SECONDS <= b.at
  }

  ghost predicate StartsInv(w: World) {
    var s := w.book.starts;
    && (s == [] <==> w.disk.attempts.None?)
    && (s != [] ==> w.disk.attempts == Some(s[|s|-1].attempts))
    && (forall k | 0 <= k < |s| :: && 1 <= s[k].attempts.count <= MAX_ATTEMPTS
                                   && s[k].attempts.retryAt == s[k].at + RETRY_SECONDS
                                   && (s[k].push.Some? ==> s[k].attempts.request == s[k].push))
    && (forall k | 0 < k < |s| :: Successive(s[k-1], s[k]))
    && (forall k | 0 <= k < |w.book.journals| :: w.book.journals[k] < |s|)
    && (forall k, l | 0 <= k < l < |w.book.journals| :: w.book.journals[k] < w.book.journals[l])
  }

  lemma StartKeepsBudget(w: World, w': World, s: Start)
    requires StartsInv(w) && StartsAttempt(w, w', s)
    ensures StartsInv(w')
  {
    var ss, ss' := w.book.starts, w'.book.starts;
    forall k | 0 < k < |ss'| ensures Successive(ss'[k-1], ss'[k]) {
      if k < |ss| {
        assert Successive(ss[k-1], ss[k]);
      }
    }
  }

  lemma JournalKeepsBudget(t: Trust, w: World, w': World, p: Pending)
    requires StartsInv(w) && OpensJournal(t, w, w', p)
    ensures StartsInv(w')
  {
    var js, js' := w.book.journals, w'.book.journals;
    forall k, l | 0 <= k < l < |js'| ensures js'[k] < js'[l] {
      if l == |js| {
        assert js[k] in js;
      }
    }
  }

  lemma StartsInvStep(t: Trust, w: World, w': World)
    requires StartsInv(w) && Step(t, w, w')
    ensures StartsInv(w')
  {
    if s: Start :| StartsAttempt(w, w', s) {
      StartKeepsBudget(w, w', s);
    } else if p: Pending :| OpensJournal(t, w, w', p) {
      JournalKeepsBudget(t, w, w', p);
    } else {
      assert w'.book.starts == w.book.starts && w'.book.journals == w.book.journals;
      assert w'.disk.attempts == w.disk.attempts;
    }
  }

  lemma {:induction false} StartsAlwaysBudgeted(t: Trust, run: seq<World>, i: nat)
    requires IsRun(t, run) && i < |run|
    ensures StartsInv(run[i])
  {
    if i > 0 {
      StartsAlwaysBudgeted(t, run, i - 1);
      StartsInvStep(t, run[i-1], run[i]);
    }
  }

  lemma {:induction false} CountsClimb(w: World, i: nat, j: nat)
    requires StartsInv(w) && i <= j < |w.book.starts|
    requires forall k | i <= k <= j :: SameOffer(w.book.starts[i], w.book.starts[k])
    ensures w.book.starts[j].attempts.count == w.book.starts[i].attempts.count + (j - i)
    ensures w.book.starts[i].at + RETRY_SECONDS * (j - i) <= w.book.starts[j].at
    decreases j
  {
    if i < j {
      CountsClimb(w, i, j - 1);
      assert Successive(w.book.starts[j-1], w.book.starts[j]);
    }
  }

  /**
    While the offered version and push request stay the same, at most three attempts start, and
    consecutive ones are at least half an hour apart. A crash after saving the record still counts.
  */
  lemma AtMostThreeAttempts(t: Trust, run: seq<World>, n: nat, i: nat, j: nat)
    requires IsRun(t, run) && n < |run|
    requires i <= j < |run[n].book.starts|
    requires forall k | i <= k <= j :: SameOffer(run[n].book.starts[i], run[n].book.starts[k])
    ensures j - i + 1 <= MAX_ATTEMPTS
    ensures forall k | i < k <= j :: run[n].book.starts[k-1].at + RETRY_SECONDS <= run[n].book.starts[k].at
  {
    StartsAlwaysBudgeted(t, run, n);
    CountsClimb(run[n], i, j);
    forall k | i < k <= j
      ensures run[n].book.starts[k-1].at + RETRY_SECONDS <= run[n].book.starts[k].at
    {
      assert SameOffer(run[n].book.starts[k-1], run[n].book.starts[k]);
      assert Successive(run[n].book.starts[k-1], run[n].book.starts[k]);
    }
  }

  /** Every journal ever opened spends an attempt of its own. */
  lemma EveryJournalSpendsAnAttempt(t: Trust, run: seq<World>, n: nat, k: nat, l: nat)
    requires IsRun(t, run) && n < |run|
    requires k < l < |run[n].book.journals|
    ensures run[n].book.journals[k] < run[n].book.journals[l] < |run[n].book.starts|
  {
    StartsAlwaysBudgeted(t, run, n);
  }

  // ---------------------------------------------------------------- how often a candidate's installer runs

  /** Each run under a journal used up a helper: one that was still waiting at its opening, or the journal's own. */
  ghost predicate RunsInv(w: World) {
    var js, waiting, runs := w.book.journals, w.book.waiting, w.book.runs;
    && |js| == |waiting| == |runs| && (w.disk.pending.Some? ==> js != [])
    && (forall k | 0 <= k < |runs| :: runs[k] <= waiting[k] + 1)
    && (w.disk.pending.Some? && w.disk.pending.value.stage != Rollback ==>
          runs[|runs|-1] + w.helpers + (if w.book.launched then 0 else 1) <= waiting[|runs|-1] + 1)
  }

  lemma OpeningCounted(t: Trust, w: World, w': World, p: Pending)
    requires RunsInv(w) && OpensJournal(t, w, w', p)
    ensures RunsInv(w')
  {
  }

  lemma RunCounted(t: Trust, w: World, w': World)
    requires RunsInv(w) && RunsCandidate(t, w, w')
    ensures RunsInv(w')
  {
  }

  lemma RunsInvStep(t: Trust, w: World, w': World)
    requires RunsInv(w) && Step(t, w, w')
    ensures RunsInv(w')
  {
    if p :| OpensJournal(t, w, w', p) {
      OpeningCounted(t, w, w', p);
    } else if RunsCandidate(t, w, w') {
      RunCounted(t, w, w');
    } else if p :| RewritesJournal(w, w', p) {
    } else if LaunchesHelper(w, w') || HelperEnds(w, w') {
    } else {
      assert w'.book.runs == w.book.runs && w'.book.waiting == w.book.waiting && w'.helpers == w.helpers;
    }
  }

  lemma {:induction false} RunsAlwaysCounted(t: Trust, run: seq<World>, i: nat)
    requires IsRun(t, run) && i < |run|
    ensures RunsInv(run[i])
  {
    if i > 0 {
      RunsAlwaysCounted(t, run, i - 1);
      RunsInvStep(t, run[i-1], run[i]);
    }
  }

  /**
    Under one journal the candidate's installer runs at most once more than there were helpers still waiting when the
    journal was opened; in particular at most once when there were none.
  */
  lemma CandidateRunsBounded(t: Trust, run: seq<World>, i: nat, k: nat)
    requires IsRun(t, run) && i < |run| && k < |run[i].book.journals|
    ensures |run[i].book.runs| == |run[i].book.waiting| == |run[i].book.journals|
    ensures run[i].book.runs[k] <= run[i].book.waiting[k] + 1
  {
    RunsAlwaysCounted(t, run, i);
  }

  /** The sum of the values of those journals whose attempt is one of i to j. */
  ghost function Sum(journals: seq<nat>, values: seq<nat>, i: nat, j: nat): nat
    requires |journals| == |values|
  {
    if journals == [] then 0
    else
      var last := |journals| - 1;
      Sum(journals[..last], values[..last], i, j) + if i <= journals[last] <= j then values[last] else 0
  }

  ghost function Ones(n: nat): seq<nat> {
    seq(n, _ => 1)
  }

  lemma {:induction false} SumBounded(journals: seq<nat>, runs: seq<nat>, waiting: seq<nat>, i: nat, j: nat)
    requires |journals| == |runs| == |waiting| && forall k | 0 <= k < |runs| :: runs[k] <= waiting[k] + 1
    ensures Sum(journals, runs, i, j) <= Sum(journals, Ones(|journals|), i, j) + Sum(journals, waiting, i, j)
  {
    if journals != [] {
      var last := |journals| - 1;
      SumBounded(journals[..last], runs[..last], waiting[..last], i, j);
      assert Ones(|journals|)[..last] == Ones(last);
    }
  }

  /** Journals have attempts of their own, so there are no more of them than attempts. */
  lemma {:induction false} JournalsCounted(journals: seq<nat>, i: nat, j: nat, top: int)
    requires forall k, l | 0 <= k < l < |journals| :: journals[k] < journals[l]
    requires forall k | 0 <= k < |journals| :: journals[k] <= top
    ensures var upper := if top < j then top else j;
            Sum(journals, Ones(|journals|), i, j) <= if upper < i then 0 else upper - i + 1
  {
    if journals != [] {
      var last := |journals| - 1;
      JournalsCounted(journals[..last], i, j, journals[last] as int - 1);
      assert Ones(|journals|)[..last] == Ones(last);
    }
  }

  lemma {:induction false} NothingWaited(journals: seq<nat>, waiting: seq<nat>, i: nat, j: nat)
    requires |journals| == |waiting|
    requires forall k | 0 <= k < |journals| && i <= journals[k] <= j :: waiting[k] == 0
    ensures Sum(journals, waiting, i, j) == 0
  {
    if journals != [] {
      var last := |journals| - 1;
      NothingWaited(journals[..last], waiting[..last], i, j);
    }
  }

  /**
    While the offered version and push request stay the same, candidate installers run at most three times, and once
    more for each helper that was still waiting at one of the openings; so at most three times if none ever was.
  */
  lemma OfferRunsBounded(t: Trust, run: seq<World>, n: nat, i: nat, j: nat)
    requires IsRun(t, run) && n < |run| && i <= j < |run[n].book.starts|
    requires forall k | i <= k <= j :: SameOffer(run[n].book.starts[i], run[n].book.starts[k])
    ensures |run[n].book.runs| == |run[n].book.waiting| == |run[n].book.journals|
    ensures var b := run[n].book;
            && Sum(b.journals, b.runs, i, j) <= MAX_ATTEMPTS + Sum(b.journals, b.waiting, i, j)
            && ((forall k | 0 <= k < |b.journals| && i <= b.journals[k] <= j :: b.waiting[k] == 0) ==>
                  Sum(b.journals, b.runs, i, j) <= MAX_ATTEMPTS)
  {
    RunsAlwaysCounted(t, run, n);
    StartsAlwaysBudgeted(t, run, n);
    AtMostThreeAttempts(t, run, n, i, j);
    var b := run[n].book;
    SumBounded(b.journals, b.runs, b.waiting, i, j);
    JournalsCounted(b.journals, i, j, |b.starts|);
    if forall k | 0 <= k < |b.journals| && i <= b.journals[k] <= j :: b.waiting[k] == 0 {
      NothingWaited(b.journals, b.waiting, i, j);
    }
  }

  // ---------------------------------------------------------------- a run in which an installer runs twice

  const OLD := Artifact("r1", "1", "d1", "sig", 1, "/api/kiosk/firmware/download/r1")
  const NEW := Artifact("r2", "2", "d2", "sig", 1, "/api/kiosk/firmware/download/r2")

  /** Every signature is good, and the only upgrade is from 1 to 2. */
  function TwoReleases(): Trust {
    Trust(true, (_, _) => true, _ => true, (a, b) => a == "2" && b == "1", s => s)
  }

  function Journal(stage: Stage, at: int): Pending {
    Pending(OLD, NEW, stage, at, None, [])
  }

  /** A machine at time `at`, with the packages staged. */
  function Machine(pending: Option<Pending>, attempts: Option<Attempts>, at: int, helpers: nat, book: Book): World {
    World(Disk(pending, attempts, None, Some(Package(1, "d1", true, "1")), Some(Package(1, "d2", true, "2"))),
          "1", None, None, at, helpers, book)
  }

  const FIRST := Attempts("2", 1, None, 1800)
  const SECOND := Attempts("2", 2, None, 3600)

  /**
    A rollback leaves a helper behind: the service restarts before the first helper gets the lock, marks the journal for
    rollback and launches a second one; the first one restores the old release, the second one still waits.
  */
  lemma HelperLeftBehind() returns (run: seq<World>)
    ensures IsRun(TwoReleases(), run)
    ensures run[|run|-1] == Machine(None, Some(FIRST), 1800, 1,
                                    Book("1", [Start(None, 0, FIRST)], [0], 0, None, true, [0], true, [0]))
  {
    var t := TwoReleases();
    var started := [Start(None, 0, FIRST)];
    var w0 := World(Disk(None, None, None, None, None), "1", None, None, 0, 0,
                    Book("1", [], [], 0, None, false, [], false, []));
    var w1 := Machine(None, None, 0, 0, w0.book);
    var w2 := Machine(None, Some(FIRST), 0, 0, w0.book.(starts := started));
    var book := Book("1", started, [0], 0, None, false, [0], false, [0]);
    var w3 := Machine(Some(Journal(Installing, 0)), Some(FIRST), 0, 0, book);
    var launched := book.(launched := true);
    var w4 := Machine(Some(Journal(Installing, 0)), Some(FIRST), 0, 1, launched);
    var w5 := Machine(Some(Journal(Rollback, 0)), Some(FIRST), 0, 1, launched);
    var w6 := Machine(Some(Journal(Rollback, 0)), Some(FIRST), 0, 2, launched);
    var w7 := Machine(Some(Journal(Rollback, 0)), Some(FIRST), 0, 2, launched.(restored := true));
    var w8 := Machine(None, Some(FIRST), 0, 2, launched.(restored := true));
    var w9 := Machine(None, Some(FIRST), 0, 1, launched.(restored := true));
    var w10 := Machine(None, Some(FIRST), 1800, 1, launched.(restored := true));
    assert StagesPackage(w0, w1);
    assert StartsAttempt(w1, w2, started[0]);
    assert OpensJournal(t, w2, w3, Journal(Installing, 0));
    assert LaunchesHelper(w3, w4);
    assert RewritesJournal(w4, w5, Journal(Rollback, 0));
    assert LaunchesHelper(w5, w6);
    assert RunsPrevious(t, w6, w7);
    assert Restores(w7, w8);
    assert HelperEnds(w8, w9);
    assert Drifts(w9, w10);
    run := [w0, w1, w2, w3, w4, w5, w6, w7, w8, w9, w10];
    assert forall i | 0 < i < 11 :: Step(t, run[i-1], run[i]);
  }

  /** The bound is met: with a helper left behind, the next journal's candidate installer can run twice. */
  lemma SecondRunHappens() returns (run: seq<World>)
    ensures Lawful(TwoReleases()) && IsRun(TwoReleases(), run)
    ensures var b := run[|run|-1].book; b.journals == [0, 1] && b.waiting == [0, 1] && b.runs == [0, 2]
  {
    var t := TwoReleases();
    run := HelperLeftBehind();
    var w0 := run[|run|-1];
    var starts := w0.book.starts + [Start(None, 1800, SECOND)];
    var w1 := Machine(None, Some(SECOND), 1800, 1, w0.book.(starts := starts));
    var book := Book("1", starts, [0, 1], 1800, None, false, [0, 1], false, [0, 0]);
    var w2 := Machine(Some(Journal(Installing, 1800)), Some(SECOND), 1800, 1, book);
    var w3 := Machine(Some(Journal(Installing, 1800)), Some(SECOND), 1800, 2, book.(launched := true));
    var w4 := Machine(Some(Journal(Installing, 1800)), Some(SECOND), 1800, 1, book.(launched := true, runs := [0, 1]));
    var w5 := Machine(Some(Journal(Installing, 1800)), Some(SECOND), 1800, 0, book.(launched := true, runs := [0, 2]));
    assert StartsAttempt(w0, w1, starts[1]);
    ExtendRun(t, run, w1);
    assert OpensJournal(t, w1, w2, Journal(Installing, 1800));
    ExtendRun(t, run + [w1], w2);
    assert LaunchesHelper(w2, w3);
    ExtendRun(t, run + [w1] + [w2], w3);
    assert RunsCandidate(t, w3, w4);
    ExtendRun(t, run + [w1] + [w2] + [w3], w4);
    assert RunsCandidate(t, w4, w5);
    ExtendRun(t, run + [w1] + [w2] + [w3] + [w4], w5);
    run := run + [w1] + [w2] + [w3] + [w4] + [w5];
  }
}
