/** The maintenance-window test, written once for the device and once for the server. */
module UpdateSchedule {
  import opened Common

  const DAY: int := 1440
  const WEEK: int := 10080

  type U8 = x: int | 0 <= x < 256

  datatype Window = Window(day: U8, start: string, end: string)

  datatype Schedule = Schedule(mode: string, windows: seq<Window>)

  function Value(c: char): int
    requires Digit(c)
  {
    (c - '0') as int
  }

  // ---------------------------------------------------------------- the device's test

  function DeviceMinutes(value: string): Option<int> {
    if |value| != 5 || value[2] != ':' then None
    else if !Digit(value[0]) || !Digit(value[1]) || !Digit(value[3]) || !Digit(value[4]) then None
    else
      var hour := Value(value[0]) * 10 + Value(value[1]);
      var minute := Value(value[3]) * 10 + Value(value[4]);
      if hour < 24 && minute < 60 then Some(hour * 60 + minute) else None
  }

  predicate DeviceOpen(w: Window, day: int, minute: int) {
    var start, end := DeviceMinutes(w.start), DeviceMinutes(w.end);
    if start.None? || end.None? || w.day > 6 || start == end then false
    else if start.value < end.value then w.day == day && start.value <= minute < end.value
    else (w.day == day && minute >= start.value) || ((w.day + 1) % 7 == day && minute < end.value)
  }

  predicate DeviceAllows(s: Schedule, day: int, minute: int) {
    if s.mode == "always" then true
    else if s.mode != "windows" || day > 6 || minute >= DAY then false
    else exists w :: w in s.windows && DeviceOpen(w, day, minute)
  }

  // ---------------------------------------------------------------- the server's test

  /** Two digits of an hour, a colon, two digits of a minute: ([01]d|2[0-3]):([0-5]d). */
  predicate TimeFormat(value: string) {
    && |value| == 5 && value[2] == ':' && Digit(value[1]) && Digit(value[4])
    && (value[0] == '0' || value[0] == '1' || (value[0] == '2' && value[1] <= '3')) && '0' <= value[3] <= '5'
  }

  function ServerMinutes(value: string): Option<int> {
    if TimeFormat(value)
        then Some((Value(value[0]) * 10 + Value(value[1])) * 60 + (Value(value[3]) * 10 + Value(value[4])))
    else None
  }

  predicate ServerOpen(w: Window, day: int, minute: int) {
    var start, end := ServerMinutes(w.start), ServerMinutes(w.end);
    if start.None? || end.None? || start == end then false
    else if start.value < end.value then w.day == day && start.value <= minute < end.value
    else (w.day == day && minute >= start.value) || ((w.day + 1) % 7 == day && minute < end.value)
  }

  predicate ServerAllows(s: Schedule, day: int, minute: int) {
    s.mode == "always" || exists w :: w in s.windows && ServerOpen(w, day, minute)
  }

  predicate WellFormed(w: Window) {
    w.day <= 6 && TimeFormat(w.start) && TimeFormat(w.end) && w.start != w.end
  }

  function WellFormedOnes(windows: seq<Window>): (r: seq<Window>)
    ensures forall w :: w in r <==> w in windows && WellFormed(w)
  {
    if windows == [] then []
    else (if WellFormed(windows[0]) then [windows[0]] else []) + WellFormedOnes(windows[1..])
  }

  /** What the server makes of a raw schedule: its well-formed windows, or always when there are none. */
  function Normalized(raw: Schedule): Schedule {
    if raw.mode == "windows" && WellFormedOnes(raw.windows) != [] then Schedule("windows", WellFormedOnes(raw.windows))
    else Schedule("always", [])
  }

  // ---------------------------------------------------------------- what both mean

  /** Minutes into the week, Sunday midnight being zero. */
  function Moment(day: int, minute: int): int {
    day * DAY + minute
  }

  /** The moment lies less than the window's length after its start, going round the day and the week. */
  predicate Within(w: Window, t: int)
    requires WellFormed(w)
  {
    var start, end := ServerMinutes(w.start).value, ServerMinutes(w.end).value;
    (t - Moment(w.day, start)) % WEEK < (end - start) % DAY
  }

  lemma MinutesAgree(value: string)
    ensures DeviceMinutes(value) == ServerMinutes(value)
    ensures ServerMinutes(value).Some? ==> 0 <= ServerMinutes(value).value < DAY
  {
  }

  /** The hour and the minute in two digits each. */
  function Clock(hour: nat, minute: nat): string
    requires hour < 24 && minute < 60
  {
    ["0123456789"[hour / 10], "0123456789"[hour % 10], ':', "0123456789"[minute / 10], "0123456789"[minute % 10]]
  }

  /** A time of day is read as its minutes since midnight. */
  lemma ClockIsRead(hour: nat, minute: nat)
    requires hour < 24 && minute < 60
    ensures DeviceMinutes(Clock(hour, minute)) == Some(hour * 60 + minute)
    ensures ServerMinutes(Clock(hour, minute)) == Some(hour * 60 + minute)
  {
    DigitValue(hour / 10);
    DigitValue(hour % 10);
    DigitValue(minute / 10);
    DigitValue(minute % 10);
    MinutesAgree(Clock(hour, minute));
  }

  lemma DigitValue(n: nat)
    requires n < 10
    ensures "0123456789"[n] == '0' + n as char && Digit("0123456789"[n]) && Value("0123456789"[n]) == n
  {
  }

  /** Only times of day are read. */
  lemma OnlyClocksAreRead(value: string) returns (hour: nat, minute: nat)
    requires ServerMinutes(value).Some?
    ensures hour < 24 && minute < 60 && value == Clock(hour, minute)
  {
    hour, minute := Value(value[0]) * 10 + Value(value[1]), Value(value[3]) * 10 + Value(value[4]);
    ClockIsRead(hour, minute);
    TimesAreCanonical(value, Clock(hour, minute));
  }

  /** A time is written in one way only. */
  lemma TimesAreCanonical(a: string, b: string)
    requires TimeFormat(a) && TimeFormat(b) && ServerMinutes(a) == ServerMinutes(b)
    ensures a == b
  {
    assert a == [a[0], a[1], a[2], a[3], a[4]] && b == [b[0], b[1], b[2], b[3], b[4]];
  }

  lemma Remainder(x: int, m: int, r: int)
    requires m > 0 && 0 <= r < m && (x == r || x == r + m || x == r - m)
    ensures x % m == r
  {
  }

  /** Testing the window's own day and, past midnight, the next one is testing the distance round the week. */
  lemma SplitIsModular(wday: int, start: int, end: int, day: int, minute: int)
    requires 0 <= wday <= 6 && 0 <= day <= 6 && 0 <= start < DAY && 0 <= end < DAY && start != end && 0 <= minute < DAY
    ensures (if start < end then wday == day && start <= minute < end
             else (wday == day && minute >= start) || ((wday + 1) % 7 == day && minute < end))
            <==> (Moment(day, minute) - Moment(wday, start)) % WEEK < (end - start) % DAY
  {
    Remainder(end - start, DAY, if start < end then end - start else end - start + DAY);
    var gap := (day - wday) * DAY + (minute - start);
    assert gap == Moment(day, minute) - Moment(wday, start);
    Remainder(gap, WEEK, if gap < 0 then gap + WEEK else gap);
  }

  lemma OpenIsWithin(w: Window, day: int, minute: int)
    requires WellFormed(w) && 0 <= day <= 6 && 0 <= minute < DAY
    ensures ServerOpen(w, day, minute) <==> Within(w, Moment(day, minute))
  {
    MinutesAgree(w.start);
    MinutesAgree(w.end);
    var start, end := ServerMinutes(w.start).value, ServerMinutes(w.end).value;
    assert start != end by { if start == end { TimesAreCanonical(w.start, w.end); } }
    SplitIsModular(w.day, start, end, day, minute);
  }

  lemma WindowsAgree(w: Window, day: int, minute: int)
    ensures DeviceOpen(w, day, minute) ==> WellFormed(w)
    ensures WellFormed(w) ==> DeviceOpen(w, day, minute) == ServerOpen(w, day, minute)
  {
    MinutesAgree(w.start);
    MinutesAgree(w.end);
    if ServerMinutes(w.start) == ServerMinutes(w.end) && TimeFormat(w.start) && TimeFormat(w.end) {
      TimesAreCanonical(w.start, w.end);
    }
  }

  /** The device never allows a moment out of the week or an unknown mode; a window that is malformed never opens. */
  lemma NeverOpenOutside(s: Schedule, w: Window, day: int, minute: int)
    ensures s.mode == "windows" && (day > 6 || minute >= 1440) ==> !DeviceAllows(s, day, minute)
    ensures s.mode != "windows" && s.mode != "always" ==> !DeviceAllows(s, day, minute)
    ensures !TimeFormat(w.start) || !TimeFormat(w.end) || w.start == w.end ==>
              !DeviceOpen(w, day, minute) && !ServerOpen(w, day, minute)
  {
    MinutesAgree(w.start);
    MinutesAgree(w.end);
  }

  /** For a schedule of well-formed windows the two tests agree, and both are the modular one. */
  lemma BothTestsAreModular(s: Schedule, day: int, minute: int)
    requires s.mode == "windows" && (forall w | w in s.windows :: WellFormed(w)) && 0 <= day <= 6 && 0 <= minute < DAY
    ensures DeviceAllows(s, day, minute) <==> exists w :: w in s.windows && Within(w, Moment(day, minute))
    ensures ServerAllows(s, day, minute) <==> exists w :: w in s.windows && Within(w, Moment(day, minute))
  {
    forall w | w in s.windows
      ensures DeviceOpen(w, day, minute) == ServerOpen(w, day, minute) == Within(w, Moment(day, minute))
    {
      WindowsAgree(w, day, minute);
      OpenIsWithin(w, day, minute);
    }
  }

  ghost predicate AgreeAt(raw: Schedule, day: int, minute: int) {
    DeviceAllows(raw, day, minute) == ServerAllows(Normalized(raw), day, minute)
  }

  /** The mode is always, or windows with at least one well-formed window. */
  predicate Settled(raw: Schedule) {
    raw.mode == "always" || (raw.mode == "windows" && exists w :: w in raw.windows && WellFormed(w))
  }

  /**
    A raw schedule means the same to the device as to the server that normalizes it exactly when it is settled;
    otherwise the server always allows and the device never does.
  */
  lemma RawScheduleAgreesIff(raw: Schedule)
    ensures (forall day, minute | 0 <= day <= 6 && 0 <= minute < DAY :: AgreeAt(raw, day, minute)) <==> Settled(raw)
    ensures !Settled(raw) ==>
              forall day, minute | 0 <= day <= 6 && 0 <= minute < DAY ::
                ServerAllows(Normalized(raw), day, minute) && !DeviceAllows(raw, day, minute)
  {
    forall day, minute | 0 <= day <= 6 && 0 <= minute < DAY
      ensures AgreeAt(raw, day, minute) <==> Settled(raw)
      ensures !Settled(raw) ==> ServerAllows(Normalized(raw), day, minute) && !DeviceAllows(raw, day, minute)
    {
      RawScheduleAt(raw, day, minute);
    }
    assert AgreeAt(raw, 0, 0) || !AgreeAt(raw, 0, 0);
  }

  lemma RawScheduleAt(raw: Schedule, day: int, minute: int)
    requires 0 <= day <= 6 && 0 <= minute < DAY
    ensures Settled(raw) ==> AgreeAt(raw, day, minute)
    ensures !Settled(raw) ==> ServerAllows(Normalized(raw), day, minute) && !DeviceAllows(raw, day, minute)
  {
    var kept := WellFormedOnes(raw.windows);
    assert (exists w :: w in raw.windows && WellFormed(w)) <==> kept != [] by {
      if kept != [] { assert kept[0] in kept; }
    }
    if raw.mode == "windows" {
      forall w | w in raw.windows
        ensures DeviceOpen(w, day, minute) <==> w in kept && ServerOpen(w, day, minute)
      {
        WindowsAgree(w, day, minute);
      }
    }
  }
}
