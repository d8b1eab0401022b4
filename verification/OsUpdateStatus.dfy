/** Which report of an operating-system update the server keeps. */
module OsUpdateStatus {
  import opened Common
  import opened Versions

  datatype Phase = Installed | PendingReboot | Confirmed | RolledBack | Failed

  datatype Report = Report(version: string, phase: Phase, error: Option<string>)

  /** What the server remembers of a kiosk: the version last attempted, if any, and how it went. */
  datatype Status = Status(target: Option<string>, phase: Phase, error: Option<string>)

  /** Trimming, the version grammar applied to trimmed text, the collation, and the text of a warning. */
  datatype Rules = Rules(
    trim: string -> string, grammar: string -> Option<Parsed>, collate: Collation, warning: (string, string) -> string)

  ghost predicate Lawful(rules: Rules) {
    && Preorder(rules.collate) && Discrete(rules.collate)
    && Parse(rules, "").None?
  }

  /** A warning says something. */
  ghost predicate Warns(rules: Rules) {
    forall r, t :: rules.warning(r, t) != ""
  }

  function Parse(rules: Rules, s: string): Option<Parsed> {
    rules.grammar(rules.trim(s))
  }

  predicate IsUpgrade(rules: Rules, candidate: string, installed: string) {
    var next, current := Parse(rules, candidate), Parse(rules, installed);
    next.Some? && if current.Some? then Compare(rules.collate, next.value, current.value) > 0
                  else rules.trim(candidate) != rules.trim(installed)
  }

  /** The stored target parses to this version. */
  ghost predicate At(rules: Rules, s: Status, v: Parsed) {
    Given(s.target) && Parse(rules, s.target.value) == Some(v)
  }

  /** The report to store, or none. */
  function Reconcile(rules: Rules, was: Status, report: Report): Option<Report> {
    if !Given(was.target) then Some(report)
    else
      var target := was.target.value;
      if report.version != target && report.phase == Confirmed && was.phase != Confirmed then
        if IsUpgrade(rules, report.version, target) then Some(report)
        else if Given(was.error) then None
        else Some(Report(target, was.phase, Some(rules.warning(report.version, target))))
      else if report.version != target && IsUpgrade(rules, target, report.version) then None
      else if report.version == target && was.phase == Confirmed && report.phase !in {Confirmed, RolledBack} then None
      else if report == Report(target, was.phase, was.error) then None
      else Some(report)
  }

  function Applied(rules: Rules, was: Status, report: Report): Status {
    match Reconcile(rules, was, report)
    case None => was
    case Some(r) => Status(Some(r.version), r.phase, r.error)
  }

  /** Storing a report twice is storing it once. */
  lemma ApplyingTwiceIsOnce(rules: Rules, was: Status, report: Report)
    requires Warns(rules)
    ensures Applied(rules, Applied(rules, was, report), report) == Applied(rules, was, report)
  {
    assert Given(was.target) ==> rules.warning(report.version, was.target.value) != "";
  }

  /** A kiosk's first report is stored as it is. */
  lemma FirstReportStored(rules: Rules, was: Status, report: Report)
    requires was.target.None? || was.target.value == ""
    ensures Applied(rules, was, report) == Status(Some(report.version), report.phase, report.error)
  {
  }

  /**
    A report of a later version than the target is always stored; one of an earlier version leaves target and phase
    alone, and at most adds a warning, when the device says it runs that version and nothing is known to be wrong yet.
  */
  lemma PrecedenceDecides(rules: Rules, was: Status, report: Report, v: Parsed, w: Parsed)
    requires Lawful(rules) && At(rules, was, v) && Parse(rules, report.version) == Some(w)
    ensures Compare(rules.collate, v, w) < 0 ==>
              Applied(rules, was, report) == Status(Some(report.version), report.phase, report.error)
    ensures Compare(rules.collate, w, v) < 0 ==>
              Applied(rules, was, report) ==
                if report.phase == Confirmed && was.phase != Confirmed && (was.error.None? || was.error.value == "")
                then was.(error := Some(rules.warning(report.version, was.target.value))) else was
    ensures Compare(rules.collate, v, w) == 0 && report.version != was.target.value ==>
              Applied(rules, was, report) ==
                if report.phase != Confirmed || was.phase == Confirmed
                then Status(Some(report.version), report.phase, report.error)
                else if was.error.None? || was.error.value == ""
                then was.(error := Some(rules.warning(report.version, was.target.value))) else was
  {
    CompareFlips(rules.collate, v, w);
    CompareFlips(rules.collate, v, v);
  }

  /** There is nothing to store exactly when storing changes nothing. */
  lemma NothingToStoreExactly(rules: Rules, was: Status, report: Report)
    requires Warns(rules) && report.version != ""
    ensures Reconcile(rules, was, report).None? <==> Applied(rules, was, report) == was
  {
    assert Given(was.target) ==> rules.warning(report.version, was.target.value) != "";
  }

  /** A report of the target itself is stored, unless it would undo a confirmation other than by a rollback. */
  lemma OwnReportStored(rules: Rules, was: Status, report: Report)
    requires was.target == Some(report.version) && report.version != ""
    ensures Applied(rules, was, report) ==
              if was.phase == Confirmed && report.phase != Confirmed && report.phase != RolledBack then was
              else Status(was.target, report.phase, report.error)
  {
    assert was == Status(was.target, was.phase, was.error);
  }

  /** While the target stays, a confirmation can only be rolled back. */
  lemma ConfirmedOnlyRollsBack(rules: Rules, was: Status, report: Report)
    requires Given(was.target) && was.phase == Confirmed && Applied(rules, was, report).target == was.target
    ensures Applied(rules, was, report).phase in {Confirmed, RolledBack}
    ensures Applied(rules, was, report).phase == RolledBack ==>
              report.version == was.target.value && report.phase == RolledBack
  {
  }

  /** A report that does not parse never replaces a target that does, and one that does never lowers it. */
  lemma TargetStepsUp(rules: Rules, was: Status, report: Report, v: Parsed)
    requires Lawful(rules) && At(rules, was, v)
    ensures exists w: Parsed :: At(rules, Applied(rules, was, report), w) && Compare(rules.collate, v, w) <= 0
  {
    var now := Applied(rules, was, report);
    CompareFlips(rules.collate, v, v);
    if now.target == was.target {
      assert At(rules, now, v) && Compare(rules.collate, v, v) <= 0;
    } else {
      var parsed := Parse(rules, report.version);
      assert parsed.Some? by {
        if parsed.None? { assert rules.trim(was.target.value) != rules.trim(report.version); }
      }
      CompareFlips(rules.collate, parsed.value, v);
      assert At(rules, now, parsed.value) && Compare(rules.collate, v, parsed.value) <= 0;
    }
  }

  /** The states a series of reports goes through. */
  ghost predicate IsRun(rules: Rules, states: seq<Status>, reports: seq<Report>) {
    && |states| == |reports| + 1
    && forall i | 0 <= i < |reports| :: Stored(rules, states, reports, i)
  }

  ghost predicate Stored(rules: Rules, states: seq<Status>, reports: seq<Report>, i: int)
    requires 0 <= i < |reports| < |states|
  {
    states[i+1] == Applied(rules, states[i], reports[i])
  }

  /** Over any series of reports a target that parses stays one, and its version never goes down. */
  lemma {:induction false} TargetNeverGoesDown(rules: Rules, states: seq<Status>, reports: seq<Report>, n: nat,
      m: nat, v: Parsed)
    requires Lawful(rules) && IsRun(rules, states, reports) && n <= m <= |reports| && At(rules, states[n], v)
    ensures exists w: Parsed :: At(rules, states[m], w) && Compare(rules.collate, v, w) <= 0
    decreases m
  {
    if n == m {
      CompareFlips(rules.collate, v, v);
      assert At(rules, states[m], v) && Compare(rules.collate, v, v) <= 0;
    } else {
      TargetNeverGoesDown(rules, states, reports, n, m - 1, v);
      var u: Parsed :| At(rules, states[m-1], u) && Compare(rules.collate, v, u) <= 0;
      assert Stored(rules, states, reports, m - 1);
      TargetStepsUp(rules, states[m-1], reports[m-1], u);
      var w: Parsed :| At(rules, states[m], w) && Compare(rules.collate, u, w) <= 0;
      CompareChains(rules.collate, v, u, w);
    }
  }

  /**
    Over any series of reports that keeps a confirmed target, the phase leaves confirmed only by an explicit
    rollback.
  */
  lemma {:induction false} ConfirmationLasts(rules: Rules, states: seq<Status>, reports: seq<Report>, n: nat, m: nat)
    requires IsRun(rules, states, reports) && n <= m <= |reports| && Given(states[n].target)
        && states[n].phase == Confirmed
    requires forall k | n <= k <= m :: states[k].target == states[n].target
    ensures states[m].phase == Confirmed ||
              exists k | n <= k < m :: reports[k].phase == RolledBack && Some(reports[k].version) == states[n].target
    decreases m
  {
    if n < m {
      ConfirmationLasts(rules, states, reports, n, m - 1);
      assert Stored(rules, states, reports, m - 1);
      if states[m-1].phase == Confirmed && states[m].phase != Confirmed {
        ConfirmedOnlyRollsBack(rules, states[m-1], reports[m-1]);
        assert reports[m-1].phase == RolledBack;
      }
    }
  }
}
