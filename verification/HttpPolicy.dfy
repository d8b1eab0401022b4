/** The ioBOX firmware's URL parser and the origin policy built on it. */
module HttpPolicy {
  import opened Common

  datatype Target = Server | Enrollment | LocalKiosk

  datatype HttpUrl = HttpUrl(host: string, path: string, port: nat, https: bool)

  // ---------------------------------------------------------------- the grammar

  predicate Forbidden(ch: char) {
    ch <= ' ' || ch == '\U{7f}' || ch == '\\' || ch == '#' || ch == '@'
  }

  predicate Clean(s: string) {
    forall i | 0 <= i < |s| :: !Forbidden(s[i])
  }

  function Lowered(s: string): (r: string)
    ensures |r| == |s| && forall i | 0 <= i < |s| :: r[i] == Lower(s[i])
  {
    seq(|s|, i requires 0 <= i < |s| => Lower(s[i]))
  }

  predicate HostChar(ch: char) {
    'a' <= ch <= 'z' || '0' <= ch <= '9' || ch == '-' || ch == '.'
  }

  predicate HostOk(s: string) {
    s != "" && forall i | 0 <= i < |s| :: HostChar(s[i])
  }

  predicate Digits(s: string) {
    forall i | 0 <= i < |s| :: '0' <= s[i] <= '9'
  }

  function Number(s: string): (n: nat)
    requires Digits(s)
    ensures |s| <= 5 ==> n <= 99999
  {
    NumberBounds(s);
    NumberOf(s)
  }

  function NumberOf(s: string): nat
    requires Digits(s)
  {
    if s == "" then 0 else NumberOf(s[..|s|-1]) * 10 + (s[|s|-1] - '0') as nat
  }

  function Ten(k: nat): nat {
    if k == 0 then 1 else 10 * Ten(k - 1)
  }

  lemma {:induction false} NumberBounds(s: string)
    requires Digits(s)
    ensures NumberOf(s) < Ten(|s|) && (|s| <= 5 ==> NumberOf(s) <= 99999)
  {
    if s != "" { NumberBounds(s[..|s|-1]); }
    assert Ten(5) == 100000 && Ten(4) == 10000 && Ten(3) == 1000 && Ten(2) == 100 && Ten(1) == 10;
  }

  /** Where the scheme ends. */
  function Scheme(url: string): Option<(bool, nat)> {
    if |url| >= 8 && url[..8] == "https://" then Some((true, 8))
    else if |url| >= 7 && url[..7] == "http://" then Some((false, 7))
    else None
  }

  /** The first place from i on where the path or the query begins, or the end. */
  function PathStart(url: string, i: nat): (k: nat)
    requires i <= |url|
    ensures i <= k <= |url| && (forall j | i <= j < k :: url[j] != '/' && url[j] != '?')
    ensures k < |url| ==> url[k] == '/' || url[k] == '?'
    decreases |url| - i
  {
    if i == |url| || url[i] == '/' || url[i] == '?' then i else PathStart(url, i + 1)
  }

  function ColonIn(s: string, i: nat): (k: nat)
    requires i <= |s|
    ensures i <= k <= |s| && (forall j | i <= j < k :: s[j] != ':') && (k < |s| ==> s[k] == ':')
    decreases |s| - i
  {
    if i == |s| || s[i] == ':' then i else ColonIn(s, i + 1)
  }

  function PortIn(authority: string, colon: nat, https: bool): Option<nat>
    requires colon <= |authority|
  {
    if colon == |authority| then Some(if https then 443 else 80)
    else
      var port := authority[colon + 1..];
      if port == "" || |port| > 5 || !Digits(port) || Number(port) == 0 || Number(port) > 65535 then None
      else Some(Number(port))
  }

  /** Host and port, if both are in order. */
  function Authority(authority: string, https: bool): Option<(string, nat)> {
    var colon := ColonIn(authority, 0);
    var host := Lowered(authority[..colon]);
    var port := PortIn(authority, colon, https);
    if !HostOk(host) || port.None? then None else Some((host, port.value))
  }

  /** Scheme, host and port of a URL, if all three are in order. */
  function Origin(url: string): Option<(bool, string, nat)> {
    if Scheme(url).None? || !Clean(url) then None
    else
      var (https, start) := Scheme(url).value;
      match Authority(url[start..PathStart(url, start)], https)
      case None => None
      case Some((host, port)) => Some((https, host, port))
  }

  function PathOf(url: string, start: nat): (path: string)
    requires start <= |url|
    ensures path != "" && path[0] == '/'
  {
    var k := PathStart(url, start);
    if k == |url| then "/" else if url[k] == '?' then "/" + url[k..] else url[k..]
  }

  function Parse(url: string): Option<HttpUrl> {
    match Origin(url)
    case None => None
    case Some((https, host, port)) => Some(HttpUrl(host, PathOf(url, Scheme(url).value.1), port, https))
  }

  // ---------------------------------------------------------------- the parser as it runs

  method ParseHttpUrl(url: string) returns (out: Option<HttpUrl>)
    ensures out == Parse(url)
  {
    var https, start;
    if |url| >= 8 && url[..8] == "https://" {
      https, start := true, 8;
    } else if |url| >= 7 && url[..7] == "http://" {
      https, start := false, 7;
    } else {
      return None;
    }
    var clean := IsClean(url);
    if !clean { return None; }
    var pathStart := FindPath(url, start);
    var authority := ParseAuthority(url[start..pathStart], https);
    if authority.None? { return None; }
    var path := if pathStart == |url| then "/" else url[pathStart..];
    if path[0] == '?' {
      path := "/" + path;
    }
    return Some(HttpUrl(authority.value.0, path, authority.value.1, https));
  }

  method IsClean(url: string) returns (clean: bool)
    ensures clean == Clean(url)
  {
    var i := 0;
    while i < |url|
      invariant 0 <= i <= |url| && forall j | 0 <= j < i :: !Forbidden(url[j])
    {
      if Forbidden(url[i]) { return false; }
      i := i + 1;
    }
    return true;
  }

  method ParseAuthority(authority: string, https: bool) returns (r: Option<(string, nat)>)
    ensures r == Authority(authority, https)
  {
    var colon := FindColon(authority);
    var host := LowerHost(authority[..colon]);
    if host.None? { return None; }
    var port := if https then 443 else 80;
    if colon < |authority| {
      var read := ReadPort(authority[colon + 1..]);
      if read.None? { return None; }
      port := read.value;
    }
    return Some((host.value, port));
  }

  method FindPath(url: string, start: nat) returns (k: nat)
    requires start <= |url|
    ensures k == PathStart(url, start)
  {
    k := start;
    while k < |url| && url[k] != '/' && url[k] != '?'
      invariant start <= k <= |url| && PathStart(url, start) == PathStart(url, k)
    {
      k := k + 1;
    }
  }

  method FindColon(s: string) returns (k: nat)
    ensures k == ColonIn(s, 0)
  {
    k := 0;
    while k < |s| && s[k] != ':'
      invariant 0 <= k <= |s| && ColonIn(s, 0) == ColonIn(s, k)
    {
      k := k + 1;
    }
  }

  method LowerHost(s: string) returns (host: Option<string>)
    ensures host == if HostOk(Lowered(s)) then Some(Lowered(s)) else None
  {
    if s == "" { return None; }
    var done := "";
    while |done| < |s|
      invariant |done| <= |s| && done == Lowered(s)[..|done|] && forall i | 0 <= i < |done| :: HostChar(done[i])
    {
      var ch := Lower(s[|done|]);
      if !HostChar(ch) {
        assert Lowered(s)[|done|] == ch;
        return None;
      }
      done := done + [ch];
    }
    assert done == Lowered(s);
    return Some(done);
  }

  /** At most five digits, so the sum stays far below 2 to the 32. */
  method ReadPort(s: string) returns (port: Option<nat>)
    ensures port == if s == "" || |s| > 5 || !Digits(s) || Number(s) == 0 || Number(s) > 65535 then None
        else Some(Number(s))
  {
    if s == "" || |s| > 5 { return None; }
    var value, i := 0, 0;
    while i < |s|
      invariant 0 <= i <= |s| && Digits(s[..i]) && value == Number(s[..i]) && value < 0x1_0000_0000
    {
      if s[i] < '0' || s[i] > '9' { return None; }
      assert s[..i+1][..i] == s[..i];
      NumberBounds(s[..i+1]);
      value := value * 10 + (s[i] - '0') as nat;
      i := i + 1;
    }
    assert s[..i] == s;
    return if value == 0 || value > 65535 then None else Some(value);
  }

  // ---------------------------------------------------------------- printing and parsing again

  function PrintWith(u: HttpUrl, digits: string): string {
    (if u.https then "https://" else "http://") + (u.host + ":" + digits) + u.path
  }

  function Print(u: HttpUrl): string {
    PrintWith(u, Decimal(u.port))
  }

  ghost predicate Accepted(u: HttpUrl) {
    HostOk(u.host) && 1 <= u.port <= 65535 && u.path != "" && u.path[0] == '/' && Clean(u.path)
  }

  /** What is accepted has a lower-case host, a port in 1 to 65535 and an absolute path. */
  lemma ParsedIsAccepted(url: string)
    requires Parse(url).Some?
    ensures Accepted(Parse(url).value)
  {
  }

  lemma {:induction false} DecimalReads(n: nat)
    ensures Digits(Decimal(n)) && Decimal(n) != "" && NumberOf(Decimal(n)) == n
    ensures n < 100000 ==> |Decimal(n)| <= 5
    ensures n < 10000 ==> |Decimal(n)| <= 4
    ensures n < 1000 ==> |Decimal(n)| <= 3
    ensures n < 100 ==> |Decimal(n)| <= 2
  {
    if n < 10 {
      assert Decimal(n)[..0] == "";
    } else {
      DecimalReads(n / 10);
      var d := Decimal(n);
      assert d[..|d|-1] == Decimal(n / 10);
    }
  }

  lemma {:induction false} PathStartAt(url: string, i: nat, k: nat)
    requires i <= k < |url| && (forall j | i <= j < k :: url[j] != '/' && url[j] != '?') && url[k] == '/'
    ensures PathStart(url, i) == k
  {
    assert PathStart(url, i) >= k;
  }

  lemma AuthorityParts(host: string, digits: string, https: bool)
    requires HostOk(host) && Digits(digits) && 1 <= |digits| <= 5 && 1 <= NumberOf(digits) <= 65535
    ensures Authority(host + ":" + digits, https) == Some((host, NumberOf(digits)))
  {
    PortExactly(host, digits, https);
  }

  ghost predicate Plain(s: string) {
    Clean(s) && forall i | 0 <= i < |s| :: s[i] != '/' && s[i] != '?'
  }

  lemma PrintedIsPlain(host: string, digits: string)
    requires HostOk(host) && Digits(digits)
    ensures Plain(host + ":" + digits)
  {
    assert Plain(host) && Plain(":") && Plain(digits);
    PlainParts(host, ":");
    PlainParts(host + ":", digits);
  }

  lemma PlainParts(a: string, b: string)
    requires Plain(a) && Plain(b)
    ensures Plain(a + b)
  {
  }

  /** A scheme, an authority and an absolute path are found again where they were put. */
  lemma PartsFound(https: bool, authority: string, path: string)
    requires Plain(authority) && path != "" && path[0] == '/' && Clean(path)
    ensures var scheme := if https then "https://" else "http://";
            var url := scheme + authority + path;
            && Scheme(url) == Some((https, |scheme|)) && Clean(url)
            && PathStart(url, |scheme|) == |scheme| + |authority|
            && url[|scheme|..|scheme| + |authority|] == authority && PathOf(url, |scheme|) == path
  {
    var scheme := if https then "https://" else "http://";
    var url := scheme + authority + path;
    var start, k := |scheme|, |scheme| + |authority|;
    SchemeFound(https, authority + path);
    assert url == scheme + (authority + path);
    CleanParts(scheme, authority, path);
    assert url[k..] == path && url[k] == path[0];
    forall j | start <= j < k
      ensures url[j] != '/' && url[j] != '?'
    {
      assert url[j] == authority[j - start];
    }
    PathStartAt(url, start, k);
  }

  lemma SchemeFound(https: bool, rest: string)
    ensures var scheme := if https then "https://" else "http://"; Scheme(scheme + rest) == Some((https, |scheme|))
  {
    var scheme := if https then "https://" else "http://";
    assert (scheme + rest)[..|scheme|] == scheme;
    if !https { assert (scheme + rest)[4] == ':'; }
  }

  lemma DigitsParse(u: HttpUrl, digits: string)
    requires Accepted(u) && Digits(digits) && 1 <= |digits| <= 5 && NumberOf(digits) == u.port
    ensures Parse(PrintWith(u, digits)) == Some(u)
  {
    PrintedIsPlain(u.host, digits);
    PartsFound(u.https, u.host + ":" + digits, u.path);
    AuthorityParts(u.host, digits, u.https);
  }

  /** Printing an accepted URL and parsing it again gives the same record. */
  lemma PrintThenParse(u: HttpUrl)
    requires Accepted(u)
    ensures Parse(Print(u)) == Some(u)
  {
    DecimalReads(u.port);
    DigitsParse(u, Decimal(u.port));
  }

  lemma BareHost(host: string, https: bool)
    requires HostOk(host)
    ensures Authority(host, https) == Some((host, if https then 443 else 80))
  {
    assert ColonIn(host, 0) == |host|;
    assert host[..|host|] == host && Lowered(host) == host;
  }

  /** Without a port, the same URL stands for the scheme's default one. */
  lemma OmittedPortIsDefault(u: HttpUrl)
    requires Accepted(u)
    ensures Parse((if u.https then "https://" else "http://") + u.host + u.path) == Some(u.(port := if u.https
        then 443 else 80))
  {
    assert Plain(u.host);
    PartsFound(u.https, u.host, u.path);
    BareHost(u.host, u.https);
  }

  lemma CleanParts(scheme: string, authority: string, path: string)
    requires scheme in {"https://", "http://"} && Clean(authority) && Clean(path)
    ensures Clean(scheme + authority + path)
  {
    assert Clean(scheme);
    forall i | 0 <= i < |scheme + authority + path|
      ensures !Forbidden((scheme + authority + path)[i])
    {
    }
  }

  /** So every accepted URL has one printed form, which stands for the same record. */
  lemma ParsePrintParse(url: string)
    requires Parse(url).Some?
    ensures Parse(Print(Parse(url).value)) == Parse(url)
  {
    ParsedIsAccepted(url);
    PrintThenParse(Parse(url).value);
  }

  // ---------------------------------------------------------------- the policy

  predicate Allow(configured: string, request: string, target: Target) {
    Parse(request).Some? &&
    if target == LocalKiosk then |Parse(request).value.path| >= 7 && Parse(request).value.path[..7] == "/local/"
    else && Parse(configured).Some? && Parse(configured).value.https && Parse(request).value.https
         && Parse(configured).value.host == Parse(request).value.host
           && Parse(configured).value.port == Parse(request).value.port
  }

  method AllowHttpRequest(configured: string, request: string, target: Target) returns (allowed: bool)
    ensures allowed == Allow(configured, request, target)
  {
    var r := ParseHttpUrl(request);
    if r.None? { return false; }
    if target == LocalKiosk {
      return |r.value.path| >= 7 && r.value.path[..7] == "/local/";
    }
    var s := ParseHttpUrl(configured);
    return s.Some? && s.value.https && r.value.https && s.value.host == r.value.host && s.value.port == r.value.port;
  }

  /** Apart from local kiosk calls the policy is "the same secure origin": symmetric and transitive. */
  lemma SameSecureOrigin(a: string, b: string, target: Target)
    requires target != LocalKiosk
    ensures Allow(a, b, target) <==> Origin(a).Some? && Origin(a) == Origin(b) && Origin(a).value.0
  {
  }

  /** Host names are made of lower-case letters, digits, hyphens and dots, once in lower case. */
  lemma HostCharacters(ch: char)
    ensures HostChar(ch) <==> ch in "abcdefghijklmnopqrstuvwxyz0123456789-."
    ensures HostChar(Lower(ch)) <==> HostChar(ch) || ch in "ABCDEFGHIJKLMNOPQRSTUVWXYZ"
  {
  }

  /** After a host, a port is one to five digits of a number from 1 to 65535. */
  lemma PortExactly(host: string, port: string, https: bool)
    requires HostOk(host)
    ensures Authority(host + ":" + port, https) ==
              if 1 <= |port| <= 5 && Digits(port) && 1 <= NumberOf(port) <= 65535 then Some((host, NumberOf(port)))
              else None
  {
    ColonFound(host, port);
    assert (host + ":" + port)[..|host|] == host && Lowered(host) == host;
    PortRead(host, port, https);
  }

  lemma PortRead(host: string, port: string, https: bool)
    ensures PortIn(host + ":" + port, |host|, https) ==
              if 1 <= |port| <= 5 && Digits(port) && 1 <= NumberOf(port) <= 65535 then Some(NumberOf(port)) else None
  {
    assert (host + ":" + port)[|host| + 1..] == port;
  }

  lemma ColonFound(host: string, port: string)
    requires HostOk(host)
    ensures ColonIn(host + ":" + port, 0) == |host|
  {
    var authority := host + ":" + port;
    assert forall i | 0 <= i < |host| :: HostChar(host[i]) && authority[i] == host[i];
    assert authority[|host|] == ':';
  }

  /** A URL with a blank, a control character, a backslash, a fragment or user information is refused everywhere. */
  lemma ConfusingUrlsRefused(url: string, i: nat, other: string, target: Target)
    requires i < |url| && (url[i] as int <= 0x20 || url[i] as int == 0x7f || url[i] in "\\#@")
    ensures Parse(url).None? && !Allow(other, url, target) && (target != LocalKiosk ==> !Allow(url, other, target))
  {
    assert Forbidden(url[i]);
  }

  /** A local kiosk call needs no origin but a path under /local/; a call to any other target is secure. */
  lemma LocalByPathAlone(configured: string, request: string)
    ensures Allow(configured, request, LocalKiosk) <==> Parse(request).Some? && "/local/" <= Parse(request).value.path
    ensures forall target | target != LocalKiosk && Allow(configured, request, target) :: "https://" <= request
  {
  }

  lemma AllowIsAnEquivalence(a: string, b: string, c: string, target: Target)
    requires target != LocalKiosk
    ensures Allow(a, b, target) <==> Allow(b, a, target)
    ensures Allow(a, b, target) && Allow(b, c, target) ==> Allow(a, c, target)
    ensures Allow(a, b, target) ==> Allow(a, a, target)
  {
    SameSecureOrigin(a, b, target);
    SameSecureOrigin(b, a, target);
    SameSecureOrigin(b, c, target);
    SameSecureOrigin(a, c, target);
    SameSecureOrigin(a, a, target);
  }

  function Slashes(n: nat): string {
    if n == 0 then "" else Slashes(n - 1) + "/"
  }

  lemma {:induction false} PathStartBeforeSlash(url: string, i: nat)
    requires i <= |url|
    ensures PathStart(url + "/", i) == PathStart(url, i)
    decreases |url| - i
  {
    if i < |url| && url[i] != '/' && url[i] != '?' { PathStartBeforeSlash(url, i + 1); }
  }

  lemma SchemeAtEnd(url: string)
    requires Scheme(url).None? && Scheme(url + "/").Some?
    ensures url + "/" == "https://" || url + "/" == "http://"
  {
    var longer := url + "/";
    var start := Scheme(longer).value.1;
    assert forall k | 0 <= k <= |url| :: longer[..k] == url[..k];
    assert longer[..start] == longer;
  }

  /** One more slash at the end changes the origin of no URL, not even of a malformed one. */
  lemma OriginIgnoresSlash(url: string)
    ensures Origin(url + "/") == Origin(url)
  {
    var longer := url + "/";
    assert Clean(longer) <==> Clean(url) by {
      if Clean(longer) { assert forall i | 0 <= i < |url| :: url[i] == longer[i]; }
    }
    if Scheme(url).Some? {
      var start := Scheme(url).value.1;
      assert longer[..start] == url[..start];
      assert Scheme(longer) == Scheme(url) by {
        if start == 7 { assert longer[..7] == "http://" && longer[4] == ':'; }
      }
      PathStartBeforeSlash(url, start);
      assert longer[start..PathStart(longer, start)] == url[start..PathStart(url, start)];
    } else if Scheme(longer).Some? {
      assert longer == "https://" || longer == "http://" by { SchemeAtEnd(url); }
    }
  }

  lemma {:induction false} SlashesIgnored<T>(f: string -> T, url: string, n: nat)
    requires forall u :: f(u + "/") == f(u)
    ensures f(url + Slashes(n)) == f(url)
  {
    if n == 0 {
      assert url + Slashes(0) == url;
    } else {
      SlashesIgnored(f, url, n - 1);
      assert url + Slashes(n) == url + Slashes(n - 1) + "/";
    }
  }

  /** Trailing slashes on the configured URL make no difference to any request. */
  lemma TrailingSlashesIgnored(configured: string, n: nat, request: string, target: Target)
    ensures Allow(configured + Slashes(n), request, target) == Allow(configured, request, target)
  {
    if target != LocalKiosk {
      forall u
        ensures Origin(u + "/") == Origin(u)
      {
        OriginIgnoresSlash(u);
      }
      SlashesIgnored(Origin, configured, n);
      SameSecureOrigin(configured + Slashes(n), request, target);
      SameSecureOrigin(configured, request, target);
    }
  }
}
