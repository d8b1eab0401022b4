/**
  Version precedence, as the server compares versions and as the deployment script keys them, and the relation of
  the two to each other and to section 11 of SemVer 2.0.0.
*/
module Versions {
  import opened Common

  datatype Ident = Num(n: nat) | Text(s: string)

  datatype Version = Version(core: seq<nat>, pre: seq<Ident>)

  predicate IdentChar(ch: char) {
    Digit(ch) || 'A' <= ch <= 'Z' || 'a' <= ch <= 'z' || ch == '-'
  }

  /** Text between two dots that is kept as text: letters, digits and hyphens, but not a number. */
  predicate Identifier(s: string) {
    && (forall i | 0 <= i < |s| :: IdentChar(s[i]))
    && (s == "" || exists i | 0 <= i < |s| :: !Digit(s[i]))
  }

  /** What the version grammar yields: three numbers and, after a hyphen, at least one character of identifiers. */
  type Parsed = v: Version |
      && |v.core| == 3 && v.pre != [Text("")]
      && forall i | 0 <= i < |v.pre| && v.pre[i].Text? :: Identifier(v.pre[i].s)
    witness Version([0, 0, 0], [])

  lemma IdentifierCharacters(ch: char)
    ensures IdentChar(ch) <==> ch == '-' || 48 <= ch as int <= 57 || 97 <= Lower(ch) as int <= 122
  {
  }

  /** How identifier strings compare: negative, zero or positive. */
  type Collation = (string, string) -> int

  function Sign(x: int): int {
    if x < 0 then -1 else if x > 0 then 1 else 0
  }

  // What follows is asked of a collation on identifiers only: on other text it may equate different strings.

  ghost predicate Antisymmetric(c: Collation) {
    forall s, t | Identifier(s) && Identifier(t) :: Sign(c(s, t)) == -Sign(c(t, s))
  }

  ghost predicate Transitive(c: Collation) {
    forall s, t, u | Identifier(s) && Identifier(t) && Identifier(u) :: c(s, t) <= 0 && c(t, u) <= 0 ==> c(s, u) <= 0
  }

  ghost predicate Preorder(c: Collation) {
    Antisymmetric(c) && Transitive(c)
  }

  /** No two different identifiers collate as equal. */
  ghost predicate Discrete(c: Collation) {
    forall s, t | Identifier(s) && Identifier(t) :: c(s, t) == 0 ==> s == t
  }

  // ---------------------------------------------------------------- what the server computes

  function CompareIdent(c: Collation, a: Ident, b: Ident): int {
    match (a, b)
    case (Num(m), Num(n)) => Sign(m - n)
    case (Num(_), Text(_)) => -1
    case (Text(_), Num(_)) => 1
    case (Text(s), Text(t)) => if s == t then 0 else Sign(c(s, t))
  }

  /** The first difference from position i on decides; a shorter list comes first. */
  function ComparePre(c: Collation, l: seq<Ident>, r: seq<Ident>, i: nat): int
    requires i <= |l| && i <= |r|
    decreases |l| - i
  {
    if i == |l| || i == |r| then Sign(|l| - |r|)
    else if l[i] == r[i] then ComparePre(c, l, r, i + 1)
    else CompareIdent(c, l[i], r[i])
  }

  function CompareCore(l: seq<nat>, r: seq<nat>, i: nat): int
    requires i <= |l| == |r|
    decreases |l| - i
  {
    if i == |l| then 0 else if l[i] == r[i] then CompareCore(l, r, i + 1) else Sign(l[i] as int - r[i] as int)
  }

  function Compare(c: Collation, l: Parsed, r: Parsed): int {
    var core := CompareCore(l.core, r.core, 0);
    if core != 0 then core
    else if l.pre == [] || r.pre == [] then (if |l.pre| == |r.pre| then 0 else if l.pre == [] then 1 else -1)
    else ComparePre(c, l.pre, r.pre, 0)
  }

  method CompareVersions(c: Collation, left: Parsed, right: Parsed) returns (result: int)
    ensures Sign(result) == Compare(c, left, right)
  {
    var index := 0;
    while index < 3
      invariant 0 <= index <= 3 && CompareCore(left.core, right.core, 0) == CompareCore(left.core, right.core, index)
    {
      if left.core[index] != right.core[index] {
        return left.core[index] as int - right.core[index] as int;
      }
      index := index + 1;
    }
    if |left.pre| == 0 || |right.pre| == 0 {
      return if |left.pre| == |right.pre| then 0 else if |left.pre| == 0 then 1 else -1;
    }
    var longest := if |left.pre| > |right.pre| then |left.pre| else |right.pre|;
    index := 0;
    while index < longest
      invariant 0 <= index <= |left.pre| && index <= |right.pre|
      invariant ComparePre(c, left.pre, right.pre, 0) == ComparePre(c, left.pre, right.pre, index)
    {
      if index == |left.pre| || index == |right.pre| {
        return if |left.pre| == |right.pre| then 0 else if index == |left.pre| then -1 else 1;
      }
      var a, b := left.pre[index], right.pre[index];
      if a != b {
        if a.Num? && b.Num? { return a.n - b.n; }
        if a.Num? { return -1; }
        if b.Num? { return 1; }
        return c(a.s, b.s);
      }
      index := index + 1;
    }
    return 0;
  }

  // ---------------------------------------------------------------- a total preorder

  lemma {:induction false} CoreFlips(l: seq<nat>, r: seq<nat>, i: nat)
    requires i <= |l| == |r|
    ensures CompareCore(r, l, i) == -CompareCore(l, r, i)
    decreases |l| - i
  {
    if i < |l| && l[i] == r[i] { CoreFlips(l, r, i + 1); }
  }

  ghost predicate Spelled(a: Ident) {
    a.Text? ==> Identifier(a.s)
  }

  ghost predicate AllSpelled(pre: seq<Ident>) {
    forall i | 0 <= i < |pre| :: Spelled(pre[i])
  }

  lemma {:induction false} PreFlips(c: Collation, l: seq<Ident>, r: seq<Ident>, i: nat)
    requires Antisymmetric(c) && AllSpelled(l) && AllSpelled(r) && i <= |l| && i <= |r|
    ensures ComparePre(c, r, l, i) == -ComparePre(c, l, r, i)
    decreases |l| - i
  {
    if i < |l| && i < |r| {
      assert Spelled(l[i]) && Spelled(r[i]);
      if l[i] == r[i] { PreFlips(c, l, r, i + 1); }
    }
  }

  /** Swapping the arguments flips the sign. */
  lemma CompareFlips(c: Collation, l: Parsed, r: Parsed)
    requires Antisymmetric(c)
    ensures Compare(c, r, l) == -Compare(c, l, r)
  {
    CoreFlips(l.core, r.core, 0);
    PreFlips(c, l.pre, r.pre, 0);
  }

  lemma {:induction false} CoreChains(l: seq<nat>, m: seq<nat>, r: seq<nat>, i: nat)
    requires i <= |l| == |m| == |r|
    ensures CompareCore(l, m, i) <= 0 && CompareCore(m, r, i) <= 0 ==>
              && CompareCore(l, r, i) <= 0
              && (CompareCore(l, r, i) == 0 ==> CompareCore(l, m, i) == 0 && CompareCore(m, r, i) == 0)
    decreases |l| - i
  {
    if i < |l| && l[i] == m[i] == r[i] { CoreChains(l, m, r, i + 1); }
  }

  lemma IdentChains(c: Collation, a: Ident, b: Ident, d: Ident)
    requires Preorder(c) && Discrete(c) && Spelled(a) && Spelled(b) && Spelled(d)
    requires CompareIdent(c, a, b) <= 0 && CompareIdent(c, b, d) <= 0 && a != b && b != d
    ensures CompareIdent(c, a, d) < 0 && a != d
  {
    assert CompareIdent(c, a, b) < 0 && CompareIdent(c, b, d) < 0;
    if a.Text? && b.Text? && d.Text? {
      assert c(a.s, d.s) <= 0 && Sign(c(a.s, b.s)) == -Sign(c(b.s, a.s));
    }
  }

  lemma {:induction false} PreChains(c: Collation, l: seq<Ident>, m: seq<Ident>, r: seq<Ident>, i: nat)
    requires Preorder(c) && Discrete(c) && AllSpelled(l) && AllSpelled(m) && AllSpelled(r)
    requires i <= |l| && i <= |m| && i <= |r|
    requires ComparePre(c, l, m, i) <= 0 && ComparePre(c, m, r, i) <= 0
    ensures ComparePre(c, l, r, i) <= 0
    decreases |l| - i
  {
    if i < |l| && i < |m| && i < |r| {
      if l[i] == m[i] == r[i] {
        PreChains(c, l, m, r, i + 1);
      } else if l[i] != m[i] && m[i] != r[i] {
        IdentChains(c, l[i], m[i], r[i]);
      }
    }
  }

  /** With a total order on identifiers, precedence is transitive; with the flip, a total preorder. */
  lemma CompareChains(c: Collation, l: Parsed, m: Parsed, r: Parsed)
    requires Preorder(c) && Discrete(c) && Compare(c, l, m) <= 0 && Compare(c, m, r) <= 0
    ensures Compare(c, l, r) <= 0
  {
    CoreChains(l.core, m.core, r.core, 0);
    if CompareCore(l.core, r.core, 0) == 0 && l.pre != [] && m.pre != [] && r.pre != [] {
      PreChains(c, l.pre, m.pre, r.pre, 0);
    }
  }

  /** A collation that equates two identifiers breaks transitivity: the loop stops at them and answers equal. */
  lemma EquatedStringsBreakTheOrder(c: Collation, s: string, t: string)
    requires Antisymmetric(c) && Identifier(s) && Identifier(t) && s != t && c(s, t) == 0
    ensures exists l: Parsed, m: Parsed, r: Parsed ::
              Compare(c, l, m) <= 0 && Compare(c, m, r) <= 0 && Compare(c, l, r) > 0
  {
    var l: Parsed := Version([1, 0, 0], [Text(s), Num(1)]);
    var m: Parsed := Version([1, 0, 0], [Text(t), Num(0)]);
    var r: Parsed := Version([1, 0, 0], [Text(s), Num(0)]);
    assert l.pre[0] == r.pre[0] && l.pre[1] != r.pre[1];
    assert ComparePre(c, l.pre, r.pre, 0) == ComparePre(c, l.pre, r.pre, 1) == 1;
    assert Sign(c(t, s)) == -Sign(c(s, t));
    assert CompareCore(l.core, m.core, 0) == CompareCore(m.core, r.core, 0) == CompareCore(l.core, r.core, 0) == 0;
    assert Compare(c, l, m) <= 0 && Compare(c, m, r) <= 0 && Compare(c, l, r) > 0;
  }

  /** So precedence is a total preorder exactly when no two different identifiers collate as equal. */
  lemma TotalPreorderIffDiscrete(c: Collation)
    requires Preorder(c)
    ensures Discrete(c) <==>
              forall l: Parsed, m: Parsed, r: Parsed :: Compare(c, l, m) <= 0 && Compare(c, m, r) <= 0
                ==> Compare(c, l, r) <= 0
  {
    if Discrete(c) {
      forall l: Parsed, m: Parsed, r: Parsed | Compare(c, l, m) <= 0 && Compare(c, m, r) <= 0
        ensures Compare(c, l, r) <= 0
      {
        CompareChains(c, l, m, r);
      }
    } else {
      var s, t :| Identifier(s) && Identifier(t) && c(s, t) == 0 && s != t;
      EquatedStringsBreakTheOrder(c, s, t);
    }
  }

  // ---------------------------------------------------------------- the deployment script's key

  /** Lexicographic by code point: at the first difference, or the shorter one first. */
  ghost predicate StringLess(s: string, t: string) {
    exists k: nat :: Diverge(s, t, k) && (k == |s| < |t| || (k < |s| && k < |t| && s[k] < t[k]))
  }

  /** The two agree before k and not at k. */
  ghost predicate Diverge<T>(a: seq<T>, b: seq<T>, k: nat) {
    && k <= |a| && k <= |b| && (forall i | 0 <= i < k :: a[i] == b[i])
    && (k == |a| || k == |b| || a[k] != b[k])
  }

  /** Tuples (0, number) and (1, string). */
  ghost predicate IdentLess(a: Ident, b: Ident) {
    match (a, b)
    case (Num(m), Num(n)) => m < n
    case (Num(_), Text(_)) => true
    case (Text(_), Num(_)) => false
    case (Text(s), Text(t)) => StringLess(s, t)
  }

  ghost predicate PreLess(a: seq<Ident>, b: seq<Ident>) {
    exists k: nat :: Diverge(a, b, k) && (k == |a| < |b| || (k < |a| && k < |b| && IdentLess(a[k], b[k])))
  }

  ghost predicate CoreLess(a: seq<nat>, b: seq<nat>) {
    exists k: nat :: Diverge(a, b, k) && k < |a| && k < |b| && a[k] < b[k]
  }

  /** The tuples (core, is stable, identifiers), compared position by position. */
  ghost predicate KeyLess(v: Parsed, w: Parsed) {
    || CoreLess(v.core, w.core)
    || (v.core == w.core && v.pre != [] && w.pre == [])
    || (v.core == w.core && (v.pre == []) == (w.pre == []) && PreLess(v.pre, w.pre))
  }

  function ByCodePoint(s: string, t: string): int {
    if s == "" || t == "" then |s| - |t|
    else if s[0] != t[0] then (if s[0] < t[0] then -1 else 1)
    else ByCodePoint(s[1..], t[1..])
  }

  lemma {:induction false} CodePointOrder(s: string, t: string)
    ensures ByCodePoint(s, t) < 0 <==> StringLess(s, t)
    ensures ByCodePoint(s, t) == 0 <==> s == t
    ensures ByCodePoint(t, s) == -ByCodePoint(s, t)
  {
    if s == "" || t == "" || s[0] != t[0] {
      assert Diverge(s, t, 0);
      assert forall k: nat | Diverge(s, t, k) :: k == 0;
    } else {
      CodePointOrder(s[1..], t[1..]);
      assert s == [s[0]] + s[1..] && t == [t[0]] + t[1..];
      forall k: nat
        ensures Diverge(s, t, k + 1) <==> Diverge(s[1..], t[1..], k)
      {
        if Diverge(s[1..], t[1..], k) {
          assert forall i | 0 < i < k + 1 :: s[i] == s[1..][i - 1] && t[i] == t[1..][i - 1];
        }
        if Diverge(s, t, k + 1) {
          assert forall i | 0 <= i < k :: s[1..][i] == s[i + 1] && t[1..][i] == t[i + 1];
        }
      }
      if StringLess(s, t) {
        var k: nat :| Diverge(s, t, k) && (k == |s| < |t| || (k < |s| && k < |t| && s[k] < t[k]));
        assert Diverge(s[1..], t[1..], k - 1);
      }
      if StringLess(s[1..], t[1..]) {
        var k: nat :| Diverge(s[1..], t[1..], k)
                      && (k == |s[1..]| < |t[1..]| || (k < |s[1..]| && k < |t[1..]| && s[1..][k] < t[1..][k]));
        assert Diverge(s, t, k + 1);
      }
    }
  }

  lemma IdentAgrees(a: Ident, b: Ident)
    ensures CompareIdent(ByCodePoint, a, b) < 0 <==> IdentLess(a, b)
    ensures CompareIdent(ByCodePoint, a, b) == 0 <==> a == b
  {
    if a.Text? && b.Text? { CodePointOrder(a.s, b.s); }
  }

  /** The recursion reaches the place where the two diverge. */
  lemma {:induction false} PreAgrees(a: seq<Ident>, b: seq<Ident>, i: nat)
    requires i <= |a| && i <= |b| && forall j | 0 <= j < i :: a[j] == b[j]
    ensures ComparePre(ByCodePoint, a, b, i) < 0 <==> PreLess(a, b)
    ensures ComparePre(ByCodePoint, a, b, i) == 0 <==> a == b
    decreases |a| - i
  {
    if i < |a| && i < |b| && a[i] == b[i] {
      PreAgrees(a, b, i + 1);
    } else {
      assert Diverge(a, b, i);
      assert forall k: nat | Diverge(a, b, k) :: k == i;
      if i < |a| && i < |b| { IdentAgrees(a[i], b[i]); }
    }
  }

  lemma {:induction false} CoreAgrees(a: seq<nat>, b: seq<nat>, i: nat)
    requires i <= |a| == |b| && forall j | 0 <= j < i :: a[j] == b[j]
    ensures CompareCore(a, b, i) < 0 <==> CoreLess(a, b)
    ensures CompareCore(a, b, i) == 0 <==> a == b
    decreases |a| - i
  {
    if i < |a| && a[i] == b[i] {
      CoreAgrees(a, b, i + 1);
    } else {
      assert Diverge(a, b, i);
      assert forall k: nat | Diverge(a, b, k) :: k == i;
    }
  }

  /** By code point, the server's comparison has the sign of the script's keys, and is zero only for equal versions. */
  lemma AgreesWithKey(v: Parsed, w: Parsed)
    ensures Compare(ByCodePoint, v, w) < 0 <==> KeyLess(v, w)
    ensures Compare(ByCodePoint, v, w) == 0 <==> v == w
  {
    CoreAgrees(v.core, w.core, 0);
    PreAgrees(v.pre, w.pre, 0);
    assert CoreLess(v.core, w.core) ==> v.core != w.core;
    if v.pre == [] && w.pre == [] { assert !PreLess(v.pre, w.pre); }
  }

  // ---------------------------------------------------------------- numeric identifiers as doubles

  ghost predicate Monotone(round: nat -> nat) {
    forall m, n | m <= n :: round(m) <= round(n)
  }

  function RoundIdent(round: nat -> nat, a: Ident): Ident {
    if a.Num? then Num(round(a.n)) else a
  }

  /** A version as the server holds it: its numeric identifiers are rounded to doubles. */
  function Rounded(round: nat -> nat, v: Parsed): Parsed {
    var pre := seq(|v.pre|, i requires 0 <= i < |v.pre| => RoundIdent(round, v.pre[i]));
    assert |v.pre| == 1 ==> pre == [RoundIdent(round, v.pre[0])];
    Version(v.core, pre)
  }

  ghost predicate NumbersIn(v: Parsed, numbers: set<nat>) {
    forall i | 0 <= i < |v.pre| && v.pre[i].Num? :: v.pre[i].n in numbers
  }

  ghost predicate Injective(round: nat -> nat, numbers: set<nat>) {
    forall m, n | m in numbers && n in numbers && round(m) == round(n) :: m == n
  }

  // ---------------------------------------------------------------- when the two programs agree

  /** Different identifiers that are not empty collate as they do by code point. */
  ghost predicate CollatesByCodePoint(c: Collation) {
    forall s, t | Identifier(s) && Identifier(t) && s != "" && t != "" && s != t :: c(s, t) < 0 <==> StringLess(s, t)
  }

  const STAGES: set<string> := {"alpha", "beta", "dev"}

  /** The versions the deployment script accepts: stable, or a stage and further identifiers, none of them empty. */
  ghost predicate Deployable(v: Parsed) {
    v.pre == [] ||
    (&& |v.pre| >= 2 && v.pre[0].Text? && v.pre[0].s in STAGES
     && forall i | 0 <= i < |v.pre| :: v.pre[i] != Text(""))
  }

  ghost predicate Agree(c: Collation, round: nat -> nat, v: Parsed, w: Parsed) {
    Compare(c, Rounded(round, v), Rounded(round, w)) < 0 <==> KeyLess(v, w)
  }

  lemma IdentsAgree(c: Collation, round: nat -> nat, numbers: set<nat>, a: Ident, b: Ident)
    requires CollatesByCodePoint(c) && Monotone(round) && Injective(round, numbers) && a != b
    requires Spelled(a) && Spelled(b) && a != Text("") && b != Text("")
    requires (a.Num? ==> a.n in numbers) && (b.Num? ==> b.n in numbers)
    ensures RoundIdent(round, a) != RoundIdent(round, b)
    ensures CompareIdent(c, RoundIdent(round, a), RoundIdent(round, b)) < 0 <==> IdentLess(a, b)
  {
  }

  lemma {:induction false} PresAgree(c: Collation, round: nat -> nat, numbers: set<nat>, v: Parsed, w: Parsed, i: nat)
    requires CollatesByCodePoint(c) && Monotone(round) && Injective(round, numbers)
    requires NumbersIn(v, numbers) && NumbersIn(w, numbers) && Deployable(v) && Deployable(w)
    requires i <= |v.pre| && i <= |w.pre| && forall j | 0 <= j < i :: v.pre[j] == w.pre[j]
    ensures ComparePre(c, Rounded(round, v).pre, Rounded(round, w).pre, i) < 0 <==> PreLess(v.pre, w.pre)
    decreases |v.pre| - i
  {
    if i < |v.pre| && i < |w.pre| && v.pre[i] == w.pre[i] {
      PresAgree(c, round, numbers, v, w, i + 1);
    } else {
      assert Diverge(v.pre, w.pre, i);
      assert forall k: nat | Diverge(v.pre, w.pre, k) :: k == i;
      if i < |v.pre| && i < |w.pre| { IdentsAgree(c, round, numbers, v.pre[i], w.pre[i]); }
    }
  }

  lemma VersionsAgree(c: Collation, round: nat -> nat, numbers: set<nat>, v: Parsed, w: Parsed)
    requires CollatesByCodePoint(c) && Monotone(round) && Injective(round, numbers)
    requires NumbersIn(v, numbers) && NumbersIn(w, numbers) && Deployable(v) && Deployable(w)
    ensures Agree(c, round, v, w)
  {
    CoreAgrees(v.core, w.core, 0);
    PresAgree(c, round, numbers, v, w, 0);
    assert CoreLess(v.core, w.core) ==> v.core != w.core;
    if v.pre == [] && w.pre == [] { assert !PreLess(v.pre, w.pre); }
  }

  function Staged(a: Ident): Parsed
    requires Spelled(a)
  {
    assert !Digit("alpha"[0]);
    Version([1, 0, 0], [Text("alpha"), a])
  }

  /** Two versions that differ in the identifier after the stage are compared by that identifier. */
  lemma StagedCompare(c: Collation, round: nat -> nat, a: Ident, b: Ident)
    requires Spelled(a) && Spelled(b) && a != b && a != Text("") && b != Text("")
    ensures Deployable(Staged(a)) && Deployable(Staged(b))
    ensures KeyLess(Staged(a), Staged(b)) <==> IdentLess(a, b)
    ensures Compare(c, Rounded(round, Staged(a)), Rounded(round, Staged(b))) ==
              if RoundIdent(round, a) == RoundIdent(round, b) then 0
              else CompareIdent(c, RoundIdent(round, a), RoundIdent(round, b))
  {
    var v, w := Staged(a), Staged(b);
    assert Diverge(v.pre, w.pre, 1) && forall k: nat | Diverge(v.pre, w.pre, k) :: k == 1;
    var p, q := Rounded(round, v).pre, Rounded(round, w).pre;
    assert p == [Text("alpha"), RoundIdent(round, a)] && q == [Text("alpha"), RoundIdent(round, b)];
    assert ComparePre(c, p, q, 0) == ComparePre(c, p, q, 1);
    assert p[1] == q[1] ==> ComparePre(c, p, q, 1) == ComparePre(c, p, q, 2) == 0;
    assert CompareCore(v.core, w.core, 0) == 0 by { CoreAgrees(v.core, w.core, 0); }
    assert !CoreLess(v.core, w.core) by { CoreAgrees(v.core, w.core, 0); }
  }

  /**
    The two programs order all the versions both accept, with numeric identifiers from a set, alike if and only if
    rounding keeps the numbers of that set apart and the server collates identifiers by code point.
  */
  lemma AgreeExactlyWhen(c: Collation, round: nat -> nat, numbers: set<nat>)
    requires Monotone(round)
    ensures Injective(round, numbers) && CollatesByCodePoint(c) <==>
              forall v: Parsed, w: Parsed | Deployable(v) && Deployable(w) && NumbersIn(v, numbers)
                && NumbersIn(w, numbers) ::
                Agree(c, round, v, w)
  {
    if Injective(round, numbers) && CollatesByCodePoint(c) {
      forall v: Parsed, w: Parsed | Deployable(v) && Deployable(w) && NumbersIn(v, numbers) && NumbersIn(w, numbers)
        ensures Agree(c, round, v, w)
      {
        VersionsAgree(c, round, numbers, v, w);
      }
    } else if !Injective(round, numbers) {
      var m, n :| m in numbers && n in numbers && round(m) == round(n) && m < n;
      StagedCompare(c, round, Num(m), Num(n));
      assert NumbersIn(Staged(Num(m)), numbers) && NumbersIn(Staged(Num(n)), numbers);
      assert !Agree(c, round, Staged(Num(m)), Staged(Num(n)));
    } else {
      var s, t :| && Identifier(s) && Identifier(t) && s != "" && t != "" && s != t
                  && !(c(s, t) < 0 <==> StringLess(s, t));
      StagedCompare(c, round, Text(s), Text(t));
      assert NumbersIn(Staged(Text(s)), numbers) && NumbersIn(Staged(Text(t)), numbers);
      assert !Agree(c, round, Staged(Text(s)), Staged(Text(t)));
    }
  }

  /**
    A collation that puts a before B, as dictionaries do, orders 1.0.0-alpha.a and 1.0.0-alpha.B against the
    script.
  */
  lemma DictionaryOrderDisagrees(c: Collation, round: nat -> nat)
    requires c("a", "B") < 0
    ensures Identifier("a") && Identifier("B")
    ensures Compare(c, Rounded(round, Staged(Text("a"))), Rounded(round, Staged(Text("B")))) < 0
    ensures KeyLess(Staged(Text("B")), Staged(Text("a")))
    ensures Deployable(Staged(Text("a"))) && Deployable(Staged(Text("B")))
  {
    assert !Digit("a"[0]) && !Digit("B"[0]);
    StagedCompare(c, round, Text("a"), Text("B"));
    StagedCompare(c, round, Text("B"), Text("a"));
    assert Diverge("B", "a", 0) && "B"[0] < "a"[0];
  }

  const SAFE: nat := 0x20_0000_0000_0000      // 2 to the 53

  /** Up to 2 to the 53 every number is a double, so then only the collation decides. */
  lemma SafeNumbersAgree(c: Collation, round: nat -> nat, numbers: set<nat>, v: Parsed, w: Parsed)
    requires Monotone(round) && (forall n: nat | n <= SAFE :: round(n) == n) && forall n | n in numbers :: n <= SAFE
    requires CollatesByCodePoint(c) && Deployable(v) && Deployable(w) && NumbersIn(v, numbers) && NumbersIn(w, numbers)
    ensures Agree(c, round, v, w)
  {
    assert Injective(round, numbers);
    VersionsAgree(c, round, numbers, v, w);
  }

  lemma {:induction false} CodePointChains(s: string, t: string, u: string)
    requires ByCodePoint(s, t) <= 0 && ByCodePoint(t, u) <= 0
    ensures ByCodePoint(s, u) <= 0
  {
    if s != "" && t != "" && u != "" && s[0] == t[0] == u[0] { CodePointChains(s[1..], t[1..], u[1..]); }
  }

  /** The order by code point is one such collation, and a total order. */
  lemma CodePointCollates()
    ensures CollatesByCodePoint(ByCodePoint) && Preorder(ByCodePoint) && Discrete(ByCodePoint)
  {
    forall s, t
      ensures (ByCodePoint(s, t) < 0 <==> StringLess(s, t)) && (ByCodePoint(s, t) == 0 <==> s == t)
      ensures Sign(ByCodePoint(s, t)) == -Sign(ByCodePoint(t, s))
    {
      CodePointOrder(s, t);
    }
    forall s, t, u | ByCodePoint(s, t) <= 0 && ByCodePoint(t, u) <= 0
      ensures ByCodePoint(s, u) <= 0
    {
      CodePointChains(s, t, u);
    }
  }
}
