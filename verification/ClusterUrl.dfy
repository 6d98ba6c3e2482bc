/** When two cluster URLs name the same cluster, and the host each one names. The URL
    grammar is Go's net/url over ASCII text. The enrollment rule is written here as the worker
    writes it, and shown to be equality of one key per URL, which everything about homes rests on;
    the control service's own key is beside it, with what the two agree on and where they part. */
module ClusterUrl {
  import opened Basics

  // -------------------------------------------------------------------------
  // url.Parse
  // -------------------------------------------------------------------------

  datatype Url = Url(scheme: string, hasUser: bool, host: string, query: string, fragment: string)

  datatype SchemeScan = NoScheme | MissingScheme | SchemeEnds(at: nat)

  predicate IsSchemeTail(c: char) {
    IsDigit(c) || c == '+' || c == '-' || c == '.'
  }

  function ScanScheme(s: string, i: nat): (r: SchemeScan)
    requires i <= |s|
    ensures r.SchemeEnds? ==> i <= r.at < |s| && 0 < r.at && s[r.at] == ':'
    decreases |s| - i
  {
    if i == |s| then NoScheme
    else if IsLetter(s[i]) then ScanScheme(s, i + 1)
    else if IsSchemeTail(s[i]) then
      if i == 0 then NoScheme else ScanScheme(s, i + 1)
    else if s[i] == ':' then
      if i == 0 then MissingScheme else SchemeEnds(i)
    else NoScheme
  }

  predicate HasControlByte(s: string) {
    exists i :: 0 <= i < |s| && (s[i] < ' ' || s[i] == '\U{007F}')
  }

  predicate IsHex(c: char) {
    IsDigit(c) || 'a' <= c <= 'f' || 'A' <= c <= 'F'
  }

  /** A percent sign at i starts a two-digit escape. */
  predicate EscapeAt(s: string, i: nat)
    requires i < |s|
  {
    s[i] == '%' ==> i + 2 < |s| && IsHex(s[i + 1]) && IsHex(s[i + 2])
  }

  predicate ValidEscapes(s: string) {
    forall i :: 0 <= i < |s| ==> EscapeAt(s, i)
  }

  predicate IsMark(c: char) {
    c == '-' || c == '_' || c == '.' || c == '~'
  }

  predicate IsSubDelimiter(c: char) {
    || c == '!' || c == '$' || c == '&' || c == '\'' || c == '(' || c == ')'
    || c == '*' || c == '+' || c == ',' || c == ';' || c == '='
  }

  predicate ValidUserChar(c: char) {
    IsLetter(c) || IsDigit(c) || IsMark(c) || IsSubDelimiter(c) || c == ':' || c == '%' || c == '@'
  }

  predicate ValidHostChar(c: char) {
    || IsLetter(c) || IsDigit(c) || IsMark(c) || IsSubDelimiter(c)
    || c == ':' || c == '[' || c == ']' || c == '<' || c == '>' || c == '\"'
  }

  predicate ValidOptionalPort(p: string) {
    p == "" || (p[0] == ':' && forall i :: 1 <= i < |p| ==> IsDigit(p[i]))
  }

  /** A bracketed address with an optional port. */
  predicate ValidBracketed(h: string) {
    var close := IndexOf(h, ']');
    && close < |h|
    && (forall i :: 1 <= i < close ==> IsHex(h[i]) || h[i] == ':' || h[i] == '.')
    && ValidOptionalPort(Suffix(h, close + 1))
  }

  /** A name with at most one colon, which starts its port. */
  predicate ValidNamed(h: string) {
    !Contains(h, '[') && ValidOptionalPort(Suffix(h, IndexOf(h, ':')))
  }

  predicate ValidHost(h: string) {
    && (forall i :: 0 <= i < |h| ==> ValidHostChar(h[i]))
    && if h != "" && h[0] == '[' then ValidBracketed(h) else ValidNamed(h)
  }

  /** A host holds an opening bracket nowhere but at its start. */
  lemma BracketIsFirst(h: string, i: nat)
    requires ValidHost(h) && 0 < i < |h|
    ensures h[i] != '['
  {
    if h[0] == '[' {
      var close := IndexOf(h, ']');
      if i > close { assert Suffix(h, close + 1)[i - close - 1] == h[i]; }
    }
  }

  predicate ValidUser(u: string) {
    (forall i :: 0 <= i < |u| ==> ValidUserChar(u[i])) && ValidEscapes(u)
  }

  /** The user part's presence and the host of "user@host". */
  function ParseAuthority(a: string): Option<(bool, string)> {
    var at := LastIndexOf(a, '@');
    var host := if at < 0 then a else Suffix(a, at + 1);
    if !ValidHost(host) then None
    else if at < 0 then Some((false, host))
    else if ValidUser(a[..at]) then Some((true, host))
    else None
  }

  /** s starts with n slashes. */
  predicate Slashes(s: string, n: nat) {
    n <= |s| && forall i :: 0 <= i < n ==> s[i] == '/'
  }

  /** "//authority/path". */
  function ParseNet(scheme: string, rest: string, query: string): Option<Url>
    requires 2 <= |rest|
  {
    var authority := Before(Suffix(rest, 2), '/');
    match ParseAuthority(authority)
    case None => None
    case Some((user, host)) =>
      if ValidEscapes(Suffix(rest, 2 + |authority|)) then Some(Url(scheme, user, host, query, "")) else None
  }

  function ParseHierarchy(scheme: string, rest: string, query: string): Option<Url> {
    var hostless := Url(scheme, false, "", query, "");
    if !Slashes(rest, 1) then
      if scheme != "" then Some(hostless)
      else if Contains(Before(rest, '/'), ':') || !ValidEscapes(rest) then None
      else Some(hostless)
    else if (scheme != "" || !Slashes(rest, 3)) && Slashes(rest, 2) then ParseNet(scheme, rest, query)
    else if ValidEscapes(rest) then Some(hostless)
    else None
  }

  /** What follows the scheme, up to the fragment. */
  function ParseRest(scheme: string, text: string): Option<Url> {
    ParseHierarchy(scheme, Before(text, '?'), After(text, '?'))
  }

  function ParseMain(s: string): Option<Url> {
    if HasControlByte(s) then None
    else if s == "*" then Some(Url("", false, "", "", ""))
    else
      match ScanScheme(s, 0)
      case MissingScheme => None
      case NoScheme => ParseRest("", s)
      case SchemeEnds(at) => ParseRest(Lower(s[..at]), Suffix(s, at + 1))
  }

  function Parse(s: string): Option<Url> {
    var fragment := After(s, '#');
    match ParseMain(Before(s, '#'))
    case None => None
    case Some(u) => if ValidEscapes(fragment) then Some(u.(fragment := fragment)) else None
  }

  function WithoutPort(host: string): string {
    var colon := LastIndexOf(host, ':');
    if 0 <= colon && ValidOptionalPort(Suffix(host, colon)) then host[..colon] else host
  }

  function Unbracket(name: string): string {
    if 2 <= |name| && name[0] == '[' && name[|name| - 1] == ']' then name[1..|name| - 1] else name
  }

  /** URL.Hostname: the host without its port and brackets. */
  function Hostname(host: string): string {
    Unbracket(WithoutPort(host))
  }

  // -------------------------------------------------------------------------
  // homes.go and backup_wiring.go
  // -------------------------------------------------------------------------

  /** The host a text names, when it parses and names one. */
  function HostNamed(s: string): Option<string> {
    match Parse(s)
    case None => None
    case Some(u) => if u.host == "" then None else Some(u.host)
  }

  function IdOfHost(host: string): string {
    var name := Lower(Hostname(host));
    if name == "" then "default" else name
  }

  /** The host of the text, read again with a scheme when it names none. */
  function FirstHost(t: string): Option<string> {
    if HostNamed(t).Some? then HostNamed(t) else HostNamed("https://" + t)
  }

  function IdOfTrimmed(t: string): string {
    if t == "" then "default" else
    match FirstHost(t)
    case Some(h) => IdOfHost(h)
    case None => "default"
  }

  /** HomeIDFromURL. */
  function HomeId(raw: string): string {
    IdOfTrimmed(Trim(raw))
  }

  function TrimSlashes(s: string): (t: string)
    ensures |t| <= |s|
    ensures t != [] ==> t[|t| - 1] != '/'
  {
    if s != [] && s[|s| - 1] == '/' then TrimSlashes(s[..|s| - 1]) else s
  }

  /** The text sameClusterURL compares. */
  function UrlText(raw: string): string {
    TrimSlashes(Trim(raw))
  }

  /** sameClusterURL, as written: equal text, or equal host that is not the fallback. */
  predicate SameByRule(a: string, b: string) {
    || Lower(UrlText(a)) == Lower(UrlText(b))
    || (Lower(HomeId(a)) == Lower(HomeId(b)) && HomeId(a) != "default")
  }

  /** The text hostOf parses: with a scheme in front when there is no mark of one. */
  function WithScheme(t: string): string {
    if ContainsMark(t) then t else "https://" + t
  }

  /** hostOf: the host with its port, except the default one; "" when there is none. */
  function HostOf(raw: string): string {
    var t := Trim(raw);
    if t == "" then "" else
    match Parse(WithScheme(t))
    case None => ""
    case Some(u) => Lower(WithoutDefaultPort(u.host))
  }

  predicate MarkAt(s: string, i: nat) {
    i + 3 <= |s| && s[i] == ':' && s[i + 1] == '/' && s[i + 2] == '/'
  }

  predicate ContainsMark(s: string) {
    exists i :: 0 <= i < |s| && MarkAt(s, i)
  }

  function WithoutDefaultPort(host: string): string {
    if 4 <= |host| && Suffix(host, |host| - 4) == ":443" then host[..|host| - 4] else host
  }

  // -------------------------------------------------------------------------
  // One key per cluster
  // -------------------------------------------------------------------------

  datatype ClusterKey = ByHost(host: string) | ByText(text: string)

  /** A cluster is its host when the URL names one, and the URL's own text otherwise. */
  function Key(url: string): ClusterKey {
    var id := HomeId(url);
    if id != "default" then ByHost(id) else ByText(Lower(UrlText(url)))
  }

  /** Two URLs name one cluster. */
  predicate SameCluster(a: string, b: string) {
    Key(a) == Key(b)
  }

  // A trailing slash changes nothing the host is read from.

  lemma IndexIs(s: string, c: char, i: nat)
    requires i <= |s|
    requires forall k :: 0 <= k < i ==> s[k] != c
    requires i < |s| ==> s[i] == c
    ensures IndexOf(s, c) == i
  {
  }

  lemma IndexSlash(s: string, c: char)
    requires c != '/'
    ensures IndexOf(s + "/", c) == if IndexOf(s, c) < |s| then IndexOf(s, c) else |s| + 1
  {
    var t := s + "/";
    var i := IndexOf(s, c);
    assert forall k :: 0 <= k < |s| ==> t[k] == s[k];
    assert t[|s|] == '/';
    IndexIs(t, c, if i < |s| then i else |t|);
  }

  lemma CutSlash(s: string, c: char)
    requires c != '/'
    ensures IndexOf(s, c) < |s| ==> Before(s + "/", c) == Before(s, c) && After(s + "/", c) == After(s, c) + "/"
    ensures IndexOf(s, c) == |s| ==> Before(s + "/", c) == s + "/" && After(s + "/", c) == ""
    ensures IndexOf(s, c) == |s| ==> Before(s, c) == s && After(s, c) == ""
  {
    IndexSlash(s, c);
    var t := s + "/";
    var i := IndexOf(s, c);
    if i < |s| {
      assert t[..i] == s[..i];
      assert Suffix(t, i + 1) == Suffix(s, i + 1) + "/";
    } else {
      assert t[..|t|] == t && s[..|s|] == s;
    }
  }

  lemma EscapesSlash(s: string)
    ensures ValidEscapes(s + "/") == ValidEscapes(s)
  {
    var t := s + "/";
    assert t[|s|] == '/' && EscapeAt(t, |s|);
    forall i | 0 <= i < |s| ensures EscapeAt(t, i) == EscapeAt(s, i) {
      assert t[i] == s[i];
      assert i + 1 < |s| ==> t[i + 1] == s[i + 1];
      assert i + 2 < |s| ==> t[i + 2] == s[i + 2];
    }
  }

  lemma SegmentSlash(rest: string)
    ensures Before(rest + "/", '/') == Before(rest, '/')
  {
    var t := rest + "/";
    assert t[|rest|] == '/';
    assert forall i :: 0 <= i < |rest| ==> t[i] == rest[i];
    assert IndexOf(t, '/') == IndexOf(rest, '/');
  }

  /** The host of a parse result, or None. */
  function HostIn(u: Option<Url>): Option<string> {
    if u.None? || u.value.host == "" then None else Some(u.value.host)
  }

  lemma NetSlash(scheme: string, rest: string, query: string, query': string)
    requires 2 <= |rest|
    ensures HostIn(ParseNet(scheme, rest + "/", query)) == HostIn(ParseNet(scheme, rest, query'))
  {
    var longer := rest + "/";
    assert Suffix(longer, 2) == Suffix(rest, 2) + "/";
    SegmentSlash(Suffix(rest, 2));
    var n := |Before(Suffix(rest, 2), '/')|;
    assert Suffix(longer, 2 + n) == Suffix(rest, 2 + n) + "/";
    EscapesSlash(Suffix(rest, 2 + n));
  }

  /** The host of an authority, or None. */
  function AuthorityHost(a: string): Option<string> {
    var r := ParseAuthority(a);
    if r.None? then None else Some(r.value.1)
  }

  lemma NetHost(scheme: string, rest: string, query: string)
    requires 2 <= |rest|
    ensures var authority := Before(Suffix(rest, 2), '/');
            HostIn(ParseNet(scheme, rest, query)) ==
            if AuthorityHost(authority).None? || AuthorityHost(authority).value == "" || !ValidEscapes(Suffix(rest, 2 + |authority|))
            then None else AuthorityHost(authority)
  {
  }

  lemma EmptyAuthority(a: string)
    requires |a| == 0
    ensures AuthorityHost(a) == Some(a)
  {
    assert ValidNamed(a) by { assert Suffix(a, IndexOf(a, ':')) == ""; }
  }

  lemma NoAuthority(scheme: string, rest: string, query: string)
    requires 2 <= |rest| && (|rest| == 2 || rest[2] == '/')
    ensures HostIn(ParseNet(scheme, rest, query)) == None
  {
    var tail := Suffix(rest, 2);
    IndexIs(tail, '/', 0);
    assert Before(tail, '/') == "";
    EmptyAuthority(Before(tail, '/'));
    NetHost(scheme, rest, query);
  }

  predicate HasAuthority(scheme: string, rest: string) {
    Slashes(rest, 2) && (scheme != "" || !Slashes(rest, 3))
  }

  lemma HostNeedsAuthority(scheme: string, rest: string, query: string)
    ensures HostIn(ParseHierarchy(scheme, rest, query)) ==
            if HasAuthority(scheme, rest) then HostIn(ParseNet(scheme, rest, query)) else None
  {
  }

  lemma AuthoritySlash(scheme: string, rest: string)
    requires |rest| != 2
    ensures HasAuthority(scheme, rest + "/") ==> |rest| == 1 || HasAuthority(scheme, rest)
    ensures HasAuthority(scheme, rest) ==> HasAuthority(scheme, rest + "/")
  {
    var longer := rest + "/";
    assert longer[|rest|] == '/';
    assert forall i :: 0 <= i < |rest| ==> longer[i] == rest[i];
    assert 3 <= |rest| ==> Slashes(longer, 2) == Slashes(rest, 2) && Slashes(longer, 3) == Slashes(rest, 3);
  }

  lemma HierarchySlash(scheme: string, rest: string, query: string, query': string)
    ensures HostIn(ParseHierarchy(scheme, rest + "/", query)) == HostIn(ParseHierarchy(scheme, rest, query'))
  {
    HostNeedsAuthority(scheme, rest + "/", query);
    HostNeedsAuthority(scheme, rest, query');
    if |rest| == 2 {
      NoAuthority(scheme, rest, query');
      NoAuthority(scheme, rest + "/", query) by { assert (rest + "/")[2] == '/'; }
    } else {
      AuthoritySlash(scheme, rest);
      if |rest| == 1 {
        NoAuthority(scheme, rest + "/", query);
      } else if 2 < |rest| {
        NetSlash(scheme, rest, query, query');
      }
    }
  }

  lemma RestSlash(scheme: string, text: string)
    ensures HostIn(ParseRest(scheme, text + "/")) == HostIn(ParseRest(scheme, text))
  {
    CutSlash(text, '?');
    if IndexOf(text, '?') < |text| {
      HostIgnoresQuery(scheme, Before(text, '?'), After(text, '?'), After(text + "/", '?'));
    } else {
      HierarchySlash(scheme, text, After(text + "/", '?'), After(text, '?'));
    }
  }

  lemma HostIgnoresQuery(scheme: string, rest: string, query: string, query': string)
    ensures HostIn(ParseHierarchy(scheme, rest, query)) == HostIn(ParseHierarchy(scheme, rest, query'))
  {
  }

  lemma ScanSchemeSlash(s: string, i: nat)
    requires i <= |s|
    ensures ScanScheme(s + "/", i) == ScanScheme(s, i)
    decreases |s| - i
  {
    var t := s + "/";
    if i < |s| {
      assert t[i] == s[i];
      ScanSchemeSlash(s, i + 1);
    } else {
      assert t[i] == '/';
    }
  }

  lemma MainSlash(s: string)
    ensures HostIn(ParseMain(s + "/")) == HostIn(ParseMain(s))
  {
    var t := s + "/";
    assert HasControlByte(t) == HasControlByte(s) by {
      assert t[|s|] == '/';
      if HasControlByte(s) {
        var i :| 0 <= i < |s| && (s[i] < ' ' || s[i] == '\U{007F}');
        assert t[i] == s[i];
      }
    }
    ScanSchemeSlash(s, 0);
    if s == "*" {
      assert t == "*/" && t[0] == '*';
      assert ScanScheme(t, 0) == NoScheme;
      assert !("/" <= Before(t, '?'));
    } else if t == "*" {
      assert false;
    } else {
      match ScanScheme(s, 0)
      case MissingScheme =>
      case NoScheme => RestSlash("", s);
      case SchemeEnds(at) =>
        assert t[..at] == s[..at] && Suffix(t, at + 1) == Suffix(s, at + 1) + "/";
        RestSlash(Lower(s[..at]), Suffix(s, at + 1));
    }
  }

  lemma HostNamedSlash(s: string)
    ensures HostNamed(s + "/") == HostNamed(s)
  {
    CutSlash(s, '#');
    if IndexOf(s, '#') < |s| {
      EscapesSlash(After(s, '#'));
    } else {
      MainSlash(s);
    }
  }

  lemma NothingNamed()
    ensures HostNamed("") == None && HostNamed("https://") == None
  {
    NoHostWithoutAuthority();
    HostNamedSlash("https:/");
    HostNamedSlash("https:");
    assert "https:/" + "/" == "https://" && "https:" + "/" == "https:/";
  }

  lemma NoHostWithoutAuthority()
    ensures HostNamed("") == None && HostNamed("https:") == None
  {
    var s := "https:";
    IndexIs(s, '#', 6);
    assert Before(s, '#') == s;
    assert ScanScheme(s, 5) == SchemeEnds(5);
    assert ScanScheme(s, 3) == ScanScheme(s, 4) == ScanScheme(s, 5);
    assert ScanScheme(s, 0) == ScanScheme(s, 1) == ScanScheme(s, 2) == ScanScheme(s, 3);
    assert Suffix(s, 6) == "";
    assert Before("", '?') == "";
    assert !Slashes("", 1);
  }

  lemma IdSlash(t: string)
    ensures IdOfTrimmed(t + "/") == IdOfTrimmed(t)
  {
    HostNamedSlash(t);
    HostNamedSlash("https://" + t);
    assert ("https://" + t) + "/" == "https://" + (t + "/");
    if t == "" {
      NothingNamed();
      assert "https://" + t == "https://";
    }
  }

  lemma IdTrimSlashes(t: string)
    ensures IdOfTrimmed(TrimSlashes(t)) == IdOfTrimmed(t)
  {
    if t != [] && t[|t| - 1] == '/' {
      assert t == t[..|t| - 1] + "/";
      IdSlash(t[..|t| - 1]);
      IdTrimSlashes(t[..|t| - 1]);
    }
  }

  // Neither does the case of a letter.

  function LowerOption(o: Option<string>): Option<string> {
    if o.None? then None else Some(Lower(o.value))
  }

  lemma LowerCharKeepsClasses(c: char, d: char)
    ensures IsLetter(LowerChar(c)) == IsLetter(c)
    ensures IsHex(LowerChar(c)) == IsHex(c)
    ensures !IsLetter(d) ==> (LowerChar(c) == d <==> c == d)
    ensures !IsLetter(c) ==> LowerChar(c) == c
    ensures LowerChar(LowerChar(c)) == LowerChar(c)
  {
  }

  lemma LowerTwice(s: string)
    ensures Lower(Lower(s)) == Lower(s)
  {
  }

  lemma LowerCut(s: string, c: char)
    requires !IsLetter(c)
    ensures IndexOf(Lower(s), c) == IndexOf(s, c)
    ensures Before(Lower(s), c) == Lower(Before(s, c))
    ensures After(Lower(s), c) == Lower(After(s, c))
  {
    var t := Lower(s);
    forall k | 0 <= k < |s| ensures t[k] == c <==> s[k] == c {
      LowerCharKeepsClasses(s[k], c);
    }
    IndexIs(t, c, IndexOf(s, c));
  }

  lemma LastIndexIs(s: string, c: char, i: int)
    requires -1 <= i < |s|
    requires forall k :: i < k < |s| ==> s[k] != c
    requires 0 <= i ==> s[i] == c
    ensures LastIndexOf(s, c) == i
  {
  }

  lemma LowerLastIndex(s: string, c: char)
    requires !IsLetter(c)
    ensures LastIndexOf(Lower(s), c) == LastIndexOf(s, c)
  {
    var t := Lower(s);
    forall k | 0 <= k < |s| ensures t[k] == c <==> s[k] == c {
      LowerCharKeepsClasses(s[k], c);
    }
    LastIndexIs(t, c, LastIndexOf(s, c));
  }

  lemma EscapesLower(s: string)
    ensures ValidEscapes(Lower(s)) == ValidEscapes(s)
  {
    var t := Lower(s);
    forall i | 0 <= i < |s| ensures EscapeAt(t, i) == EscapeAt(s, i) {
      LowerCharKeepsClasses(s[i], '%');
      if i + 2 < |s| {
        LowerCharKeepsClasses(s[i + 1], '%');
        LowerCharKeepsClasses(s[i + 2], '%');
      }
    }
  }

  lemma PortLower(p: string)
    ensures ValidOptionalPort(Lower(p)) == ValidOptionalPort(p)
  {
    var t := Lower(p);
    forall k | 0 <= k < |p| ensures (t[k] == ':' <==> p[k] == ':') && IsDigit(t[k]) == IsDigit(p[k]) {
      LowerCharKeepsClasses(p[k], ':');
    }
  }

  lemma HostCharLower(c: char)
    ensures ValidHostChar(LowerChar(c)) == ValidHostChar(c)
    ensures ValidUserChar(LowerChar(c)) == ValidUserChar(c)
  {
  }

  lemma BracketedLower(h: string)
    ensures ValidBracketed(Lower(h)) == ValidBracketed(h)
  {
    var t := Lower(h);
    LowerCut(h, ']');
    var j := IndexOf(h, ']');
    if j < |h| {
      assert Suffix(t, j + 1) == Lower(Suffix(h, j + 1));
      PortLower(Suffix(h, j + 1));
      forall k | 0 <= k < |h|
        ensures (IsHex(t[k]) || t[k] == ':' || t[k] == '.') == (IsHex(h[k]) || h[k] == ':' || h[k] == '.')
      {
        LowerCharKeepsClasses(h[k], ':');
        LowerCharKeepsClasses(h[k], '.');
      }
    }
  }

  lemma NamedLower(h: string)
    ensures ValidNamed(Lower(h)) == ValidNamed(h)
  {
    LowerCut(h, '[');
    LowerCut(h, ':');
    var i := IndexOf(h, ':');
    assert Suffix(Lower(h), i) == Lower(Suffix(h, i));
    PortLower(Suffix(h, i));
  }

  lemma HostLower(h: string)
    ensures ValidHost(Lower(h)) == ValidHost(h)
  {
    var t := Lower(h);
    forall k | 0 <= k < |h| ensures ValidHostChar(t[k]) == ValidHostChar(h[k]) {
      HostCharLower(h[k]);
    }
    if h != "" { LowerCharKeepsClasses(h[0], '['); }
    BracketedLower(h);
    NamedLower(h);
  }

  lemma UserLower(u: string)
    ensures ValidUser(Lower(u)) == ValidUser(u)
  {
    forall i | 0 <= i < |u| ensures ValidUserChar(Lower(u)[i]) == ValidUserChar(u[i]) {
      HostCharLower(u[i]);
    }
    EscapesLower(u);
  }

  lemma AuthorityLower(a: string)
    ensures AuthorityHost(Lower(a)) == LowerOption(AuthorityHost(a))
  {
    var t := Lower(a);
    LowerLastIndex(a, '@');
    var at := LastIndexOf(a, '@');
    if at < 0 {
      HostLower(a);
    } else {
      assert Suffix(t, at + 1) == Lower(Suffix(a, at + 1));
      HostLower(Suffix(a, at + 1));
      assert t[..at] == Lower(a[..at]);
      UserLower(a[..at]);
    }
  }

  lemma NetLower(scheme: string, rest: string, query: string, query': string)
    requires 2 <= |rest|
    ensures HostIn(ParseNet(scheme, Lower(rest), query)) == LowerOption(HostIn(ParseNet(scheme, rest, query')))
  {
    var t := Lower(rest);
    var tail := Suffix(rest, 2);
    assert Suffix(t, 2) == Lower(tail);
    LowerCut(tail, '/');
    var authority := Before(tail, '/');
    AuthorityLower(authority);
    assert Suffix(t, 2 + |authority|) == Lower(Suffix(rest, 2 + |authority|));
    EscapesLower(Suffix(rest, 2 + |authority|));
    NetHost(scheme, t, query);
    NetHost(scheme, rest, query');
  }

  lemma SlashesLower(s: string, n: nat)
    ensures Slashes(Lower(s), n) == Slashes(s, n)
  {
    forall i | 0 <= i < |s| ensures Lower(s)[i] == '/' <==> s[i] == '/' {
      LowerCharKeepsClasses(s[i], '/');
    }
  }

  lemma RestLower(scheme: string, text: string)
    ensures HostIn(ParseRest(Lower(scheme), Lower(text))) == LowerOption(HostIn(ParseRest(scheme, text)))
  {
    LowerCut(text, '?');
    var rest := Before(text, '?');
    var query, query' := After(Lower(text), '?'), After(text, '?');
    HostNeedsAuthority(Lower(scheme), Lower(rest), query);
    HostNeedsAuthority(scheme, rest, query');
    SlashesLower(rest, 2);
    SlashesLower(rest, 3);
    assert Lower(scheme) == "" <==> scheme == "";
    if HasAuthority(scheme, rest) {
      NetLower(Lower(scheme), rest, query, query');
      NetIgnoresScheme(scheme, rest, query');
    }
  }

  lemma NetIgnoresScheme(scheme: string, rest: string, query: string)
    requires 2 <= |rest|
    ensures HostIn(ParseNet(Lower(scheme), rest, query)) == HostIn(ParseNet(scheme, rest, query))
  {
  }

  lemma ScanSchemeLower(s: string, i: nat)
    requires i <= |s|
    ensures ScanScheme(Lower(s), i) == ScanScheme(s, i)
    decreases |s| - i
  {
    if i < |s| {
      LowerCharKeepsClasses(s[i], ':');
      ScanSchemeLower(s, i + 1);
    }
  }

  lemma MainLower(s: string)
    ensures HostIn(ParseMain(Lower(s))) == LowerOption(HostIn(ParseMain(s)))
  {
    var t := Lower(s);
    assert HasControlByte(t) == HasControlByte(s) by {
      forall i | 0 <= i < |s|
        ensures (s[i] < ' ' || s[i] == '\U{007F}') <==> (t[i] < ' ' || t[i] == '\U{007F}')
      {
        LowerCharKeepsClasses(s[i], '\U{007F}');
      }
      if HasControlByte(s) {
        var i :| 0 <= i < |s| && (s[i] < ' ' || s[i] == '\U{007F}');
        assert t[i] < ' ' || t[i] == '\U{007F}';
      }
    }
    assert t == "*" <==> s == "*" by {
      if |s| == 1 { LowerCharKeepsClasses(s[0], '*'); }
    }
    ScanSchemeLower(s, 0);
    match ScanScheme(s, 0)
    case MissingScheme =>
    case NoScheme =>
      RestLower("", s);
      assert Lower("") == "";
    case SchemeEnds(at) =>
      assert t[..at] == Lower(s[..at]) && Suffix(t, at + 1) == Lower(Suffix(s, at + 1));
      RestLower(Lower(s[..at]), Suffix(s, at + 1));
  }

  lemma HostNamedLower(s: string)
    ensures HostNamed(Lower(s)) == LowerOption(HostNamed(s))
  {
    LowerCut(s, '#');
    MainLower(Before(s, '#'));
    EscapesLower(After(s, '#'));
  }

  lemma UnbracketLower(name: string)
    ensures Unbracket(Lower(name)) == Lower(Unbracket(name))
  {
    if 2 <= |name| {
      LowerCharKeepsClasses(name[0], '[');
      LowerCharKeepsClasses(name[|name| - 1], ']');
      assert Lower(name)[1..|name| - 1] == Lower(name[1..|name| - 1]);
    }
  }

  lemma WithoutPortLower(h: string)
    ensures WithoutPort(Lower(h)) == Lower(WithoutPort(h))
  {
    LowerLastIndex(h, ':');
    var colon := LastIndexOf(h, ':');
    if 0 <= colon {
      assert Suffix(Lower(h), colon) == Lower(Suffix(h, colon));
      assert Lower(h)[..colon] == Lower(h[..colon]);
      PortLower(Suffix(h, colon));
    }
  }

  lemma IdOfHostLower(h: string)
    ensures IdOfHost(Lower(h)) == IdOfHost(h)
  {
    WithoutPortLower(h);
    UnbracketLower(WithoutPort(h));
    LowerTwice(Hostname(h));
  }

  lemma LowerAppend(a: string, b: string)
    ensures Lower(a + b) == Lower(a) + Lower(b)
  {
  }

  lemma FirstHostLower(t: string)
    ensures FirstHost(Lower(t)) == LowerOption(FirstHost(t))
  {
    HostNamedLower(t);
    HostNamedLower("https://" + t);
    LowerAppend("https://", t);
    LowerScheme();
  }

  lemma LowerScheme()
    ensures Lower("https://") == "https://"
  {
  }

  lemma IdLower(t: string)
    ensures IdOfTrimmed(Lower(t)) == IdOfTrimmed(t)
  {
    FirstHostLower(t);
    assert t == "" <==> Lower(t) == "";
    if FirstHost(t).Some? { IdOfHostLower(FirstHost(t).value); }
  }

  // -------------------------------------------------------------------------
  // The rule is an equivalence
  // -------------------------------------------------------------------------

  lemma FallbackIsLower()
    ensures Lower("default") == "default"
  {
  }

  lemma IdOfHostIsLower(h: string)
    ensures Lower(IdOfHost(h)) == IdOfHost(h)
  {
    FallbackIsLower();
    LowerTwice(Hostname(h));
  }

  lemma IdOfTrimmedIsLower(t: string)
    ensures Lower(IdOfTrimmed(t)) == IdOfTrimmed(t)
  {
    FallbackIsLower();
    if FirstHost(t).Some? { IdOfHostIsLower(FirstHost(t).value); }
  }

  /** Equal text gives an equal host: the step every later argument rests on. */
  lemma SameTextSameHost(a: string, b: string)
    requires Lower(UrlText(a)) == Lower(UrlText(b))
    ensures HomeId(a) == HomeId(b)
  {
    IdTrimSlashes(Trim(a));
    IdTrimSlashes(Trim(b));
    IdLower(UrlText(a));
    IdLower(UrlText(b));
  }

  /** sameClusterURL relates two URLs exactly when they have one key. */
  lemma RuleIsKeyEquality(a: string, b: string)
    ensures SameByRule(a, b) <==> SameCluster(a, b)
  {
    IdOfTrimmedIsLower(Trim(a));
    IdOfTrimmedIsLower(Trim(b));
    if Lower(UrlText(a)) == Lower(UrlText(b)) {
      SameTextSameHost(a, b);
    }
  }

  lemma KeyOfTrimmed(url: string)
    ensures Key(Trim(url)) == Key(url)
  {
    TrimTwice(url);
  }

  /** sameClusterURL is an equivalence. */
  lemma RuleIsEquivalence(a: string, b: string, c: string)
    ensures SameByRule(a, a)
    ensures SameByRule(a, b) ==> SameByRule(b, a)
    ensures SameByRule(a, b) && SameByRule(b, c) ==> SameByRule(a, c)
  {
    RuleIsKeyEquality(a, a);
    RuleIsKeyEquality(a, b);
    RuleIsKeyEquality(b, a);
    RuleIsKeyEquality(b, c);
    RuleIsKeyEquality(a, c);
  }

  // -------------------------------------------------------------------------
  // The control service's key, hostOf
  // -------------------------------------------------------------------------

  /** A URL, or a bare host, that names a host which does not read as the fallback id. Without the mark
      of a scheme it must not name another host as it stands, as "//host" does. */
  predicate WellFormed(url: string) {
    var t := Trim(url);
    && t != ""
    && HostNamed(WithScheme(t)).Some?
    && (ContainsMark(t) || HostNamed(t).None?)
    && Hostname(HostNamed(WithScheme(t)).value) != ""
    && Lower(Hostname(HostNamed(WithScheme(t)).value)) != "default"
  }

  lemma NetHostIsValid(scheme: string, rest: string, query: string)
    requires 2 <= |rest|
    ensures HostIn(ParseNet(scheme, rest, query)).Some? ==> ValidHost(HostIn(ParseNet(scheme, rest, query)).value)
  {
  }

  lemma RestHostIsValid(scheme: string, text: string)
    ensures HostIn(ParseRest(scheme, text)).Some? ==> ValidHost(HostIn(ParseRest(scheme, text)).value)
  {
    var rest := Before(text, '?');
    HostNeedsAuthority(scheme, rest, After(text, '?'));
    if HasAuthority(scheme, rest) { NetHostIsValid(scheme, rest, After(text, '?')); }
  }

  lemma NamedHostIsValid(s: string)
    ensures HostNamed(s).Some? ==> ValidHost(HostNamed(s).value)
  {
    var main := Before(s, '#');
    match ScanScheme(main, 0)
    case MissingScheme =>
    case NoScheme => RestHostIsValid("", main);
    case SchemeEnds(at) => RestHostIsValid(Lower(main[..at]), Suffix(main, at + 1));
  }

  lemma HostnameLower(h: string)
    ensures Hostname(Lower(h)) == Lower(Hostname(h))
  {
    WithoutPortLower(h);
    UnbracketLower(WithoutPort(h));
  }

  lemma NoColonNoPort(h: string)
    requires forall i :: 0 <= i < |h| ==> h[i] != ':'
    ensures WithoutPort(h) == h
  {
  }

  /** Dropping ":443" never changes the host name. */
  lemma DefaultPortIsNotTheName(h: string)
    requires ValidHost(h)
    ensures Hostname(WithoutDefaultPort(h)) == Hostname(h)
  {
    var n := |h|;
    if 4 <= n && Suffix(h, n - 4) == ":443" {
      var name := h[..n - 4];
      assert h[n - 4] == ':' && h[n - 3] == '4' && h[n - 2] == '4' && h[n - 1] == '3' by {
        assert Suffix(h, n - 4)[0] == ':' && Suffix(h, n - 4)[1] == '4' && Suffix(h, n - 4)[2] == '4' && Suffix(h, n - 4)[3] == '3';
      }
      LastIndexIs(h, ':', n - 4);
      assert WithoutPort(h) == name;
      if h[0] == '[' {
        BracketEndsName(h);
      } else {
        NamedHasOneColon(h, n - 4);
        NoColonNoPort(name);
      }
    }
  }

  lemma NamedHasOneColon(h: string, at: nat)
    requires ValidNamed(h) && at < |h| && h[at] == ':'
    ensures forall i :: 0 <= i < at ==> h[i] != ':'
  {
    var first := IndexOf(h, ':');
    var port := Suffix(h, first);
    assert forall k :: first < k < |h| ==> h[k] == port[k - first];
    assert forall k :: first < k < |h| ==> IsDigit(h[k]);
  }

  lemma BracketIsNotAPort(name: string)
    requires name != "" && name[|name| - 1] == ']'
    ensures WithoutPort(name) == name
  {
    var colon := LastIndexOf(name, ':');
    if 0 <= colon {
      var port := Suffix(name, colon);
      assert port[|port| - 1] == ']';
    }
  }

  lemma BracketBeforePort(h: string)
    requires ValidBracketed(h) && 4 <= |h| && h[|h| - 4] == ':' && IsDigit(h[|h| - 3]) && IsDigit(h[|h| - 2]) && IsDigit(h[|h| - 1])
    ensures 5 <= |h| && h[|h| - 5] == ']'
  {
    var n := |h|;
    var close := IndexOf(h, ']');
    var port := Suffix(h, close + 1);
    assert close < n - 4;
    assert port[0] == h[close + 1];
    assert forall k :: 1 <= k < |port| ==> port[k] != ':';
    assert port[n - 4 - close - 1] == ':';
  }

  lemma BracketEndsName(h: string)
    requires ValidBracketed(h) && 4 <= |h| && Suffix(h, |h| - 4) == ":443"
    ensures WithoutPort(h[..|h| - 4]) == h[..|h| - 4]
  {
    var n := |h|;
    var tail := Suffix(h, n - 4);
    assert tail[0] == h[n - 4] && tail[1] == h[n - 3] && tail[2] == h[n - 2] && tail[3] == h[n - 1];
    BracketBeforePort(h);
    BracketIsNotAPort(h[..n - 4]);
  }

  /** For well-formed URLs one control key means one cluster. */
  lemma SameHostSameCluster(a: string, b: string)
    requires WellFormed(a) && WellFormed(b) && HostOf(a) == HostOf(b)
    ensures SameCluster(a, b)
  {
    HostKeyGivesId(a);
    HostKeyGivesId(b);
  }

  lemma HostKeyGivesId(url: string)
    requires WellFormed(url)
    ensures HostOf(url) != ""
    ensures HomeId(url) == Hostname(HostOf(url)) && HomeId(url) != "default"
  {
    var t := Trim(url);
    var h := HostNamed(WithScheme(t)).value;
    NothingNamed();
    NamedHostIsValid(WithScheme(t));
    DefaultPortIsNotTheName(h);
    HostnameLower(WithoutDefaultPort(h));
    assert Hostname("") == "";
  }

  lemma HostCharIsPlain(c: char)
    requires ValidHostChar(c)
    ensures ' ' < c != '\U{007F}' && !IsSpace(c)
    ensures c != '/' && c != '?' && c != '#' && c != '@'
  {
  }

  lemma HostIsPlain(h: string)
    requires ValidHost(h)
    ensures forall i :: 0 <= i < |h| ==> ' ' < h[i] != '\U{007F}' && !IsSpace(h[i])
    ensures forall i :: 0 <= i < |h| ==> h[i] != '/' && h[i] != '?' && h[i] != '#' && h[i] != '@'
  {
    forall i | 0 <= i < |h|
      ensures ' ' < h[i] != '\U{007F}' && !IsSpace(h[i])
      ensures h[i] != '/' && h[i] != '?' && h[i] != '#' && h[i] != '@'
    {
      HostCharIsPlain(h[i]);
    }
  }

  lemma AuthorityOfHost(h: string)
    requires ValidHost(h)
    ensures AuthorityHost(h) == Some(h)
    ensures Before(h, '/') == h
  {
    HostIsPlain(h);
    IndexIs(h, '/', |h|);
    LastIndexIs(h, '@', -1);
  }

  lemma SlashesThenHost(text: string, h: string)
    requires text == "//" + h
    ensures |text| == |h| + 2 && text[0] == '/' && text[1] == '/'
    ensures Suffix(text, 2) == h && Suffix(text, 2 + |h|) == ""
  {
    assert |Suffix(text, 2 + |h|)| == 0;
  }

  lemma NoQuery(text: string, h: string)
    requires ValidHost(h) && text == "//" + h
    ensures Before(text, '?') == text
  {
    HostIsPlain(h);
    forall i | 0 <= i < |text| ensures text[i] != '?' {
      if 2 <= i { assert text[i] == h[i - 2]; }
    }
    IndexIs(text, '?', |text|);
  }

  lemma RestNamesItsHost(scheme: string, h: string)
    requires scheme != "" && ValidHost(h) && h != ""
    ensures HostIn(ParseRest(scheme, "//" + h)) == Some(h)
  {
    var text := "//" + h;
    AuthorityOfHost(h);
    SlashesThenHost(text, h);
    NoQuery(text, h);
    HostNeedsAuthority(scheme, text, After(text, '?'));
    NetHost(scheme, text, After(text, '?'));
  }

  lemma ScanHttps(s: string)
    requires 6 <= |s| && s[0] == 'h' && s[1] == 't' && s[2] == 't' && s[3] == 'p' && s[4] == 's' && s[5] == ':'
    ensures ScanScheme(s, 0) == SchemeEnds(5)
  {
    assert ScanScheme(s, 5) == SchemeEnds(5);
    assert ScanScheme(s, 3) == ScanScheme(s, 4) == ScanScheme(s, 5);
    assert ScanScheme(s, 0) == ScanScheme(s, 1) == ScanScheme(s, 2) == ScanScheme(s, 3);
  }

  lemma HttpsShape(s: string, h: string)
    requires ValidHost(h) && s == "https://" + h
    ensures Suffix(s, 6) == "//" + h
    ensures !HasControlByte(s) && IndexOf(s, '#') == |s| && s != "*"
    ensures ScanScheme(s, 0) == SchemeEnds(5)
  {
    HostIsPlain(h);
    forall i | 0 <= i < |s| ensures ' ' <= s[i] != '\U{007F}' && s[i] != '#' {
      if 8 <= i { assert s[i] == h[i - 8]; }
    }
    IndexIs(s, '#', |s|);
    ScanHttps(s);
  }

  lemma HttpsMain(s: string, h: string)
    requires ValidHost(h) && h != "" && s == "https://" + h
    ensures HostIn(ParseMain(s)) == Some(h)
  {
    HttpsShape(s, h);
    RestNamesItsHost(Lower(s[..5]), h);
  }

  lemma HttpsIsTrimmed(s: string, h: string)
    requires ValidHost(h) && h != "" && s == "https://" + h
    ensures Trim(s) == s && ContainsMark(s)
  {
    HostIsPlain(h);
    assert s[|s| - 1] == h[|h| - 1];
    TrimOfTrimmed(s);
    assert MarkAt(s, 5);
  }

  lemma WholeText(s: string)
    requires IndexOf(s, '#') == |s|
    ensures HostNamed(s) == HostIn(ParseMain(s))
  {
    assert Before(s, '#') == s && After(s, '#') == "";
  }

  /** A plain https URL names exactly the host it spells. */
  lemma HttpsNamesItsHost(s: string, h: string)
    requires ValidHost(h) && h != "" && s == "https://" + h
    ensures HostNamed(s) == Some(h)
  {
    HttpsShape(s, h);
    WholeText(s);
    HttpsMain(s, h);
  }

  lemma {:induction false} NoColonNoScheme(s: string, i: nat)
    requires i <= |s| && forall k :: i <= k < |s| ==> s[k] != ':'
    ensures ScanScheme(s, i).NoScheme?
    decreases |s| - i
  {
    if i < |s| { NoColonNoScheme(s, i + 1); }
  }

  /** A bare host names none as it stands. */
  lemma BareHostNamesNone(h: string)
    requires ValidHost(h) && h != "" && forall i :: 0 <= i < |h| ==> h[i] != ':'
    ensures HostNamed(h) == None && !ContainsMark(h) && Trim(h) == h
  {
    HostIsPlain(h);
    IndexIs(h, '#', |h|);
    IndexIs(h, '?', |h|);
    WholeText(h);
    NoColonNoScheme(h, 0);
    HostNeedsAuthority("", Before(h, '?'), After(h, '?'));
    TrimOfTrimmed(h);
  }

  /** A bare host is well formed, and its control key is the host. */
  lemma BareHostIsWellFormed(h: string)
    requires ValidHost(h) && h != "" && forall i :: 0 <= i < |h| ==> h[i] != ':'
    requires Hostname(h) != "" && Lower(Hostname(h)) != "default"
    ensures WellFormed(h) && HostOf(h) == Lower(WithoutDefaultPort(h))
  {
    BareHostNamesNone(h);
    HttpsNamesItsHost("https://" + h, h);
  }

  lemma SplitPort(name: string, port: string)
    requires ValidOptionalPort(port) && forall i :: 0 <= i < |name| ==> IsLetter(name[i])
    ensures Hostname(name + port) == name
  {
    var h := name + port;
    assert h[..|name|] == name && Suffix(h, |name|) == port;
    LastIndexIs(h, ':', if port == "" then -1 else |name|);
    assert WithoutPort(h) == name;
  }

  lemma KeepsOtherPort(name: string, port: string)
    requires ValidOptionalPort(port) && port != ":443" && forall i :: 0 <= i < |name| ==> IsLetter(name[i])
    ensures WithoutDefaultPort(name + port) == name + port
  {
    var h := name + port;
    if 4 <= |h| {
      var tail := Suffix(h, |h| - 4);
      assert tail[0] == h[|h| - 4] && tail[1] == h[|h| - 3] && tail[2] == h[|h| - 2] && tail[3] == h[|h| - 1];
      if tail[0] == ':' {
        assert |name| == |h| - 4;
        assert port == tail;
      }
    }
  }

  /** The control key keeps the port, so one cluster can have many keys. */
  lemma PortsSplitTheControlKey(url: string, name: string, port: string)
    requires url == "https://" + (name + port)
    requires name != "" && ValidHost(name + port) && ValidOptionalPort(port) && port != ":443"
    requires (forall i :: 0 <= i < |name| ==> IsLetter(name[i])) && Lower(name) != "default"
    ensures WellFormed(url) && Key(url) == ByHost(Lower(name)) && HostOf(url) == Lower(name + port)
  {
    HttpsNamesItsHost(url, name + port);
    HttpsIsTrimmed(url, name + port);
    SplitPort(name, port);
    KeepsOtherPort(name, port);
  }
}
