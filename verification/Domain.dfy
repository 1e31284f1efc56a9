/** Host extraction and host matching (`domain.rs`), on ASCII text. */
module Domain {
  import opened Prelude
  import opened Strings

  predicate IsSpace(c: char) {
    c == ' ' || '\t' <= c <= '\r'
  }

  function TrimStart(s: string): (r: string)
    ensures r == "" || !IsSpace(r[0])
    ensures |r| <= |s| && r == s[|s| - |r|..]
  {
    if s != "" && IsSpace(s[0]) then TrimStart(s[1..]) else s
  }

  function TrimEnd(s: string): (r: string)
    ensures r <= s && (r == "" || !IsSpace(r[|r| - 1]))
  {
    if s != "" && IsSpace(s[|s| - 1]) then TrimEnd(s[..|s| - 1]) else s
  }

  function Trim(s: string): string {
    TrimEnd(TrimStart(s))
  }

  function LowerChar(c: char): char {
    if 'A' <= c <= 'Z' then (c as int + 32) as char else c
  }

  function Lower(s: string): (r: string)
    ensures |r| == |s| && forall i :: 0 <= i < |s| ==> r[i] == LowerChar(s[i])
  {
    if s == "" then "" else [LowerChar(s[0])] + Lower(s[1..])
  }

  predicate EndsAuthority(c: char) {
    c == '/' || c == '?' || c == '#'
  }

  predicate IsColon(c: char) {
    c == ':'
  }

  /** Drop a trailing `:port`, but leave text with several colons or a leading bracket alone. */
  function StripPort(s: string): string {
    var host := Before(s, IsColon);
    if |host| < |s| && ':' !in s[|host| + 1..] && s[0] != '[' then host else s
  }

  const WWW := "www."

  function StripWww(s: string): string {
    if WWW <= s then s[4..] else s
  }

  function AuthorityOf(uri: string): string {
    var trimmed := Trim(uri);
    var parts := SplitOnce(trimmed, "://");
    Before(if parts.Some? then parts.value.1 else trimmed, EndsAuthority)
  }

  function HostInAuthority(authority: string): string {
    StripWww(Lower(StripPort(AfterLast(authority, '@'))))
  }

  /** The comparable host of a stored login URI. */
  function HostFromUri(uri: string): Option<string> {
    var host := HostInAuthority(AuthorityOf(uri));
    if host == "" then None else Some(host)
  }

  /** The host in an entry name; free text, mail addresses and dotless names have none. */
  function HostFromName(name: string): Option<string> {
    var n := Trim(name);
    if ' ' in n || '@' in n || '.' !in n then None else HostFromUri(n)
  }

  predicate IsSubdomain(sub: string, parent: string) {
    |sub| > |parent| && sub[|sub| - |parent|..] == parent && sub[|sub| - |parent| - 1] == '.'
  }

  /** What the program asks outside this file: IP literals and the Public Suffix List, which
      is absent (always `None`) when the feature is off. */
  datatype Resolver = Resolver(isIp: string -> bool, suffixList: string -> Option<string>)

  function RegistrableDomain(r: Resolver, host: string): Option<string> {
    if r.isIp(host) then None else r.suffixList(host)
  }

  predicate HostsMatch(r: Resolver, a: string, b: string) {
    if a == "" || b == "" then false
    else if a == b then true
    else if '.' !in a || '.' !in b || r.isIp(a) || r.isIp(b) then false
    else if IsSubdomain(a, b) || IsSubdomain(b, a) then true
    else
      var ra, rb := RegistrableDomain(r, a), RegistrableDomain(r, b);
      ra.Some? && rb.Some? && ra.value == rb.value
  }

  // ----- Host parsing ----------------------------------------------------------------------

  /** Whatever the input, a result is non-empty, lower-case and free of URI delimiters. */
  lemma HostIsClean(uri: string)
    ensures HostFromUri(uri).Some? ==>
              var h := HostFromUri(uri).value;
              h != "" && Lower(h) == h && forall c :: c in h ==> !('A' <= c <= 'Z') && !Delimits(c)
  {
    CleanAuthority(AuthorityOf(uri));
    hide HostInAuthority, AuthorityOf, NoDelimiters, Lower, Delimits;
    if HostFromUri(uri).Some? {
      HasNoCapitals(HostFromUri(uri).value);
    }
  }

  predicate Delimits(c: char) {
    c == '/' || c == '?' || c == '#' || c == '@'
  }

  lemma HasNoCapitals(h: string)
    requires Lower(h) == h && NoDelimiters(h)
    ensures forall c :: c in h ==> !('A' <= c <= 'Z') && !Delimits(c)
  {
    forall i | 0 <= i < |h| ensures !('A' <= h[i] <= 'Z') && !Delimits(h[i]) {
      assert Lower(h)[i] == LowerChar(h[i]) && h[i] in h;
    }
  }

  /** Lower-casing turns the letters A to Z into a to z and leaves everything else alone. */
  lemma LowersLetters(s: string, i: nat)
    requires i < |s|
    ensures if 'A' <= s[i] <= 'Z' then Lower(s)[i] as int - 'a' as int == s[i] as int - 'A' as int
            else Lower(s)[i] == s[i]
  {
  }

  /** White space of ASCII. */
  predicate Blank(s: string) {
    forall i :: 0 <= i < |s| ==> IsBlank(s[i])
  }

  predicate IsBlank(c: char) {
    c == ' ' || c == '\t' || c == '\n' || c == '\r' || c as int == 11 || c as int == 12
  }

  /** Not blank at either end. */
  predicate Bare(s: string) {
    s == "" || (!IsBlank(s[0]) && !IsBlank(s[|s| - 1]))
  }

  lemma {:induction false} TrimStartDrops(a: string, s: string)
    requires Blank(a) && (s == "" || !IsSpace(s[0]))
    ensures TrimStart(a + s) == s
  {
    if a == "" {
      assert a + s == s;
    } else {
      assert (a + s)[0] == a[0] && (a + s)[1..] == a[1..] + s;
      TrimStartDrops(a[1..], s);
    }
  }

  lemma {:induction false} TrimEndDrops(s: string, b: string)
    requires Blank(b) && (s == "" || !IsSpace(s[|s| - 1]))
    ensures TrimEnd(s + b) == s
  {
    if b == "" {
      assert s + b == s;
    } else {
      assert (s + b)[|s + b| - 1] == b[|b| - 1] && (s + b)[..|s + b| - 1] == s + b[..|b| - 1];
      TrimEndDrops(s, b[..|b| - 1]);
    }
  }

  lemma Appended(a: string, b: string, c: string)
    ensures a + b + c == a + (b + c)
  {
  }

  lemma TrimsBlank(s: string)
    requires Blank(s)
    ensures Trim(s) == ""
  {
    TrimStartDrops(s, "");
    assert s + "" == s;
  }

  lemma TrimsText(a: string, s: string, b: string)
    requires Blank(a) && Blank(b) && s != "" && Bare(s)
    ensures Trim(a + (s + b)) == s
  {
    assert !IsSpace(s[0]) && !IsSpace(s[|s| - 1]);
    hide TrimStart, TrimEnd, Blank, Bare, IsSpace, IsBlank;
    EndsOf(s, b);
    TrimStartDrops(a, s + b);
    TrimEndDrops(s, b);
  }

  /** Blanks around a text are dropped, and only those. */
  lemma TrimsAround(a: string, s: string, b: string)
    requires Blank(a) && Blank(b) && Bare(s)
    ensures Trim(a + s + b) == s
  {
    hide Trim;
    Appended(a, s, b);
    if s == "" {
      assert s + b == b && Blank(a + b);
      TrimsBlank(a + b);
    } else {
      TrimsText(a, s, b);
    }
  }

  lemma TrimsToSame(x: string, y: string)
    requires Trim(x) == Trim(y)
    ensures HostFromUri(x) == HostFromUri(y)
  {
    hide Trim, SplitOnce, Before, HostInAuthority;
  }

  lemma BareStays(s: string)
    requires Bare(s)
    ensures Trim(s) == s
  {
  }

  /** Blanks around a URI do not matter. */
  lemma BlanksDoNotMatter(a: string, s: string, b: string)
    requires Blank(a) && Blank(b) && Bare(s)
    ensures HostFromUri(a + s + b) == HostFromUri(s)
  {
    hide Trim, Blank, Bare, HostFromUri;
    TrimsAround(a, s, b);
    BareStays(s);
    TrimsToSame(a + s + b, s);
  }

  /** A name gives a host exactly when, blanks around it aside, it has no space and no at sign, has
      a dot, and gives a host as a URI. */
  lemma NamesWithHosts(a: string, s: string, b: string)
    requires Blank(a) && Blank(b) && Bare(s)
    ensures HostFromName(a + s + b).Some? <==> ' ' !in s && '@' !in s && '.' in s && HostFromUri(s).Some?
    ensures HostFromName(a + s + b).Some? ==> HostFromName(a + s + b) == HostFromUri(a + s + b)
  {
    TrimsAround(a, s, b);
    BlanksDoNotMatter(a, s, b);
    hide Trim, HostFromUri;
  }

  /** Free of URI delimiters. */
  ghost predicate NoDelimiters(s: string) {
    forall c :: c in s ==> !EndsAuthority(c) && c != '@'
  }

  lemma CleanAuthority(authority: string)
    requires forall c :: c in authority ==> !EndsAuthority(c)
    ensures var h := HostInAuthority(authority); Lower(h) == h && NoDelimiters(h)
  {
    var full := AfterLast(authority, '@');
    assert NoDelimiters(full);
    var host := StripPort(full);
    assert NoDelimiters(host);
    CleanLower(host);
    var low := Lower(host);
    assert StripWww(low) == low || StripWww(low) == low[4..];
  }

  lemma CleanLower(host: string)
    requires NoDelimiters(host)
    ensures NoDelimiters(Lower(host)) && forall c :: c in Lower(host) ==> LowerChar(c) == c
  {
    forall c | c in Lower(host) ensures !EndsAuthority(c) && c != '@' && LowerChar(c) == c {
      var i :| 0 <= i < |host| && Lower(host)[i] == c;
      assert host[i] in host;
    }
  }

  predicate SchemeText(s: string) {
    s != "" && !IsSpace(s[0]) && ':' !in s
  }

  /** The characters a host may have; a registered name has no colon either. */
  predicate HostChar(c: char) {
    !EndsAuthority(c) && c != '@' && !IsSpace(c)
  }

  /** A registered name or IPv4 address. */
  predicate RegName(s: string) {
    && (s == "" || s[0] != '[')
    && forall c :: c in s ==> HostChar(c) && c != ':'
  }

  /** An IP literal: an address in brackets. */
  predicate IpLiteral(s: string) {
    && |s| >= 2 && s[0] == '[' && s[|s| - 1] == ']'
    && forall c :: c in s ==> HostChar(c)
  }

  predicate HostText(s: string) {
    RegName(s) || IpLiteral(s)
  }

  predicate Digits(s: string) {
    forall c :: c in s ==> '0' <= c <= '9'
  }

  /** The written form of a URI with the components of RFC 3986, section 3. */
  function Written(scheme: string, user: Option<string>, host: string, port: Option<string>, tail: string): string {
    scheme + "://" + (if user.Some? then user.value + "@" else "")
    + host + (if port.Some? then ":" + port.value else "") + tail
  }

  predicate Components(scheme: string, user: Option<string>, host: string, port: Option<string>, tail: string) {
    && SchemeText(scheme) && HostText(host) && (port.Some? ==> Digits(port.value))
    && (user.Some? ==> forall c :: c in user.value ==> !EndsAuthority(c))
    && (tail == "" || tail[0] == '/' || tail[0] == '?' || tail[0] == '#')
  }

  lemma WrittenAround(scheme: string, user: Option<string>, host: string, port: Option<string>, tail: string)
    ensures Written(scheme, user, host, port, tail) == scheme + "://" + Authority(user, host, port) + tail
  {
  }

  function PortPart(port: Option<string>): string {
    if port.Some? then ":" + port.value else ""
  }

  /** The text that the parser takes for the host: an IP literal keeps its port. */
  function Kept(host: string, port: Option<string>): string {
    if IpLiteral(host) then host + PortPart(port) else host
  }

  /** Parsing the written form finds that text, lower-cased and without one `www.`. */
  lemma HostOfWritten(scheme: string, user: Option<string>, host: string, port: Option<string>, tail: string)
    requires Components(scheme, user, host, port, tail)
    ensures var h := StripWww(Lower(Kept(host, port)));
            HostFromUri(Written(scheme, user, host, port, tail)) == if h == "" then None else Some(h)
  {
    WrittenAround(scheme, user, host, port, tail);
    AuthorityText(user, host, port);
    hide AuthorityOf, HostInAuthority, Authority, Kept, Lower, HostText, Digits, Written, StripWww;
    AuthorityIsFound(scheme, Authority(user, host, port), tail);
    HostIsFound(user, host, port);
  }

  function Authority(user: Option<string>, host: string, port: Option<string>): string {
    (if user.Some? then user.value + "@" else "") + (host + PortPart(port))
  }

  lemma AuthorityText(user: Option<string>, host: string, port: Option<string>)
    requires HostText(host) && (port.Some? ==> Digits(port.value))
    requires user.Some? ==> forall c :: c in user.value ==> !EndsAuthority(c)
    ensures var authority := Authority(user, host, port);
            && (authority == "" || !IsSpace(authority[|authority| - 1]))
            && forall c :: c in authority ==> !EndsAuthority(c)
  {
    if host != "" {
      assert host[|host| - 1] in host;
    }
    if port.Some? && port.value != "" {
      assert port.value[|port.value| - 1] in port.value;
    }
  }

  lemma TrimmedUri(front: string, authority: string, tail: string) returns (cut: string)
    requires front != "" && !IsSpace(front[0]) && !IsSpace(front[|front| - 1])
    requires authority == "" || !IsSpace(authority[|authority| - 1])
    requires tail == "" || EndsAuthority(tail[0])
    ensures Trim(front + authority + tail) == front + (authority + cut)
    ensures cut == "" || EndsAuthority(cut[0])
  {
    hide Trim, IsSpace;
    EndsOf(front, authority);
    cut := TrimTail(front + authority, tail);
    Appended(front, authority, cut);
  }

  lemma EndsOf(a: string, b: string)
    requires a != ""
    ensures (a + b)[0] == a[0] && (a + b)[|a + b| - 1] == if b == "" then a[|a| - 1] else b[|b| - 1]
  {
  }

  lemma AuthorityIsFound(scheme: string, authority: string, tail: string)
    requires SchemeText(scheme) && (authority == "" || !IsSpace(authority[|authority| - 1]))
    requires forall c :: c in authority ==> !EndsAuthority(c)
    requires tail == "" || EndsAuthority(tail[0])
    ensures AuthorityOf(scheme + "://" + authority + tail) == authority
  {
    var cut := TrimmedUri(scheme + "://", authority, tail);
    SplitOnceAt(scheme, "://", authority + cut);
    BeforePrefix(authority, cut, EndsAuthority);
    hide Trim, SplitOnce, Before;
  }

  lemma HostIsFound(user: Option<string>, host: string, port: Option<string>)
    requires HostText(host) && (port.Some? ==> Digits(port.value))
    ensures HostInAuthority(Authority(user, host, port)) == StripWww(Lower(Kept(host, port)))
  {
    var userPart := if user.Some? then user.value + "@" else "";
    assert '@' !in host + PortPart(port);
    AfterLastSuffix(userPart, host + PortPart(port), '@');
    if IpLiteral(host) {
      LiteralKeepsPort(host, port);
    } else {
      PortIsStripped(host, port);
    }
  }

  /** Trimming a URI only shortens its tail, which keeps its first character. */
  lemma TrimTail(core: string, tail: string) returns (cut: string)
    requires core != "" && !IsSpace(core[0]) && !IsSpace(core[|core| - 1])
    requires tail == "" || EndsAuthority(tail[0])
    ensures Trim(core + tail) == core + cut && (cut == "" || EndsAuthority(cut[0]))
  {
    assert TrimStart(core + tail) == core + tail;
    cut := TrimEndTail(core, tail);
  }

  lemma {:induction false} TrimEndTail(core: string, tail: string) returns (cut: string)
    requires core != "" && !IsSpace(core[|core| - 1])
    requires tail == "" || EndsAuthority(tail[0])
    ensures TrimEnd(core + tail) == core + cut && (cut == "" || EndsAuthority(cut[0]))
    decreases |tail|
  {
    if tail != "" && IsSpace(tail[|tail| - 1]) {
      assert (core + tail)[..|core + tail| - 1] == core + tail[..|tail| - 1];
      cut := TrimEndTail(core, tail[..|tail| - 1]);
    } else {
      cut := tail;
    }
  }

  lemma PortIsStripped(host: string, port: Option<string>)
    requires RegName(host) && (port.Some? ==> Digits(port.value))
    ensures StripPort(host + PortPart(port)) == host
  {
    assert port.Some? ==> ':' !in port.value;
    forall c | c in host ensures !IsColon(c) {
    }
    BeforePrefix(host, PortPart(port), IsColon);
    hide RegName, Digits, Before;
    if port.Some? {
      var s := host + PortPart(port);
      assert s[|host| + 1..] == port.value && s[0] == if host == "" then ':' else host[0];
    } else {
      assert host + "" == host;
    }
  }

  lemma LiteralKeepsPort(host: string, port: Option<string>)
    requires IpLiteral(host)
    ensures StripPort(host + PortPart(port)) == host + PortPart(port)
  {
    assert (host + PortPart(port))[0] == '[';
    hide IpLiteral, Before;
  }

  /** Round trip: the parser returns exactly the normalized host `h` the URI was written from,
      with or without `www.` before it, exactly when there is a host, no `www.` of its own is
      left unprotected, and an IP literal has no port. */
  lemma HostRoundTrip(scheme: string, user: Option<string>, www: bool, h: string, port: Option<string>, tail: string)
    requires Components(scheme, user, (if www then WWW else "") + h, port, tail) && Lower(h) == h
    ensures HostFromUri(Written(scheme, user, (if www then WWW else "") + h, port, tail)) == Some(h)
            <==> h != "" && (www || !(WWW <= h)) && (IpLiteral(h) && !www ==> port.None?)
  {
    var host := (if www then WWW else "") + h;
    HostOfWritten(scheme, user, host, port, tail);
    if www {
      assert host[0] == 'w' && Kept(host, port) == host;
      WwwText(h);
    } else {
      assert host == h;
      NothingLost(h, port);
    }
    hide HostFromUri, Written, Kept, Lower, HostText, IpLiteral, Digits;
  }

  lemma NothingLost(h: string, port: Option<string>)
    requires Lower(h) == h && (port.Some? ==> Digits(port.value))
    ensures StripWww(Lower(Kept(h, port))) == h <==> !(WWW <= h) && (IpLiteral(h) ==> port.None?)
  {
    LowerKept(h, port);
    var kept := Kept(h, port);
    assert IpLiteral(h) ==> kept[0] == '[';
    assert |kept| == |h| <==> !(IpLiteral(h) && port.Some?);
    assert port.None? ==> h + PortPart(port) == h;
    hide Lower, IpLiteral, Digits;
    assert WWW <= h ==> |StripWww(h)| < |h|;
  }

  lemma LowerKept(h: string, port: Option<string>)
    requires Lower(h) == h && (port.Some? ==> Digits(port.value))
    ensures Lower(Kept(h, port)) == Kept(h, port)
  {
    var s := Kept(h, port);
    hide IpLiteral;
    forall i | 0 <= i < |s| ensures LowerChar(s[i]) == s[i] {
      if i < |h| {
        assert Lower(h)[i] == LowerChar(h[i]) && s[i] == h[i];
      } else if i > |h| {
        assert s[i] == port.value[i - |h| - 1] && s[i] in port.value;
      }
    }
  }

  lemma WwwText(h: string)
    requires Lower(h) == h
    ensures StripWww(Lower(WWW + h)) == h
  {
    forall i | 0 <= i < 4 ensures LowerChar(WWW[i]) == WWW[i] {
    }
    assert Lower(WWW + h) == WWW + h;
    assert (WWW + h)[4..] == h;
  }

  /** The port of an IP literal stays with it, and the result does not match the bare literal the
      browser asks for, unless the literal has a dot. */
  lemma LiteralWithPortIsLost(scheme: string, user: Option<string>, h: string, port: Option<string>, tail: string,
                              r: Resolver)
    requires Components(scheme, user, h, port, tail) && IpLiteral(h) && Lower(h) == h
    ensures HostFromUri(Written(scheme, user, h, port, tail)) == Some(h + PortPart(port))
    ensures port.Some? && '.' !in h ==> !HostsMatch(r, h + PortPart(port), h)
  {
    HostOfWritten(scheme, user, h, port, tail);
    LowerKept(h, port);
    assert (h + PortPart(port))[0] == '[' && |h + PortPart(port)| == |h| + |PortPart(port)|;
    hide HostFromUri, Written, Lower, RegistrableDomain, IsSubdomain;
  }

  /** For instance at port 8080 of the IPv6 loopback address. */
  lemma LiteralWithPortExample(r: Resolver) returns (uri: string, stored: string, h: string)
    ensures uri == "http://[::1]:8080/" && stored == "[::1]:8080" && h == "[::1]"
    ensures HostFromUri(uri) == Some(stored) && !HostsMatch(r, stored, h)
  {
    hide HostFromUri, HostsMatch, Lower;
    var scheme, port, tail := "http", Some("8080"), "/";
    h := "[::1]";
    AlreadyLower(h);
    uri, stored := Written(scheme, None, h, port, tail), h + PortPart(port);
    LiteralWithPortIsLost(scheme, None, h, port, tail, r);
  }

  lemma AlreadyLower(s: string)
    requires forall i :: 0 <= i < |s| ==> LowerChar(s[i]) == s[i]
    ensures Lower(s) == s
  {
  }

  /** For instance a web address with `www.` in front. */
  lemma WwwExample() returns (uri: string, h: string)
    ensures uri == "https://www.example.com" && h == "example.com" && HostFromUri(uri) == Some(h)
  {
    hide HostFromUri, Lower;
    var scheme := "https";
    h := "example.com";
    AlreadyLower(h);
    uri := Written(scheme, None, WWW + h, None, "");
    HostRoundTrip(scheme, None, true, h, None, "");
  }

  /** An entry that the save prompt named after its site is found under it exactly when the name
      has a dot and does not start with `www.`: only then is the host in the name the name. */
  lemma NamedHostRoundTrip(r: Resolver, h: string)
    requires HostText(h) && Lower(h) == h
    ensures HostFromName(h) == Some(h) <==> '.' in h && !(WWW <= h)
    ensures HostFromName(h) == Some(h) ==> HostsMatch(r, HostFromName(h).value, h)
  {
    NameIsUri(h);
    BareHost(h);
    hide HostFromName, HostFromUri, Lower, HostText, IsSubdomain, RegistrableDomain;
    assert WWW <= h ==> |StripWww(h)| < |h|;
    assert '.' in h ==> h != "";
  }

  lemma NameIsUri(h: string)
    requires HostText(h)
    ensures HostFromName(h) == if '.' in h then HostFromUri(h) else None
  {
    TrimHost(h);
    assert ' ' !in h && '@' !in h;
    hide HostFromUri, Trim, HostText;
  }

  lemma TrimHost(h: string)
    requires HostText(h)
    ensures Trim(h) == h
  {
    if h != "" {
      assert h[|h| - 1] in h && h[0] in h;
    }
  }

  /** A host without anything around it is its own URI. */
  lemma BareHost(h: string)
    requires HostText(h)
    ensures HostFromUri(h) == var host := StripWww(Lower(h)); if host == "" then None else Some(host)
  {
    assert '/' !in h;
    NoPattern(h);
    TrimHost(h);
    BeforePrefix(h, "", EndsAuthority);
    assert h + "" == h && AuthorityOf(h) == h;
    hide AuthorityOf;
    HostIsFound(None, h, None);
    assert Authority(None, h, None) == h && Kept(h, None) == h;
  }

  /** A bare address with several colons is left whole: it has no port to strip. */
  lemma SeveralColonsStay(a: string, b: string, c: string)
    requires var s := a + ":" + (b + ":" + c); s[0] != '[' && forall x :: x in s ==> HostChar(x)
    ensures HostFromUri(a + ":" + (b + ":" + c)) == Some(StripWww(Lower(a + ":" + (b + ":" + c))))
  {
    var s := a + ":" + (b + ":" + c);
    StaysWhole(a, b, c);
    BareText(s);
    AfterLastSuffix("", s, '@');
    assert "" + s == s && s[|a|] == ':';
    var low := Lower(s);
    assert low[|a|] == ':';
    WwwHasNoColon(low, |a|);
    hide AuthorityOf, StripPort, AfterLast, StripWww, Lower;
  }

  /** A text with a colon is not all `www.`. */
  lemma WwwHasNoColon(s: string, i: nat)
    requires i < |s| && s[i] == ':'
    ensures StripWww(s) != ""
  {
    if |s| == 4 {
      assert WWW[i] != ':';
    }
  }

  lemma StaysWhole(a: string, b: string, c: string)
    requires (a + ":" + (b + ":" + c))[0] != '['
    ensures StripPort(a + ":" + (b + ":" + c)) == a + ":" + (b + ":" + c)
  {
    var s := a + ":" + (b + ":" + c);
    var first := Before(s, IsColon);
    assert s[|a|] == ':' && s[|a| + 1 + |b|] == ':';
    assert forall k :: 0 <= k < |first| ==> first[k] in first && first[k] == s[k];
    assert |first| <= |a|;
    assert s[|first| + 1..][|a| + |b| - |first|] == ':';
  }

  /** A text without delimiters is its own authority. */
  lemma BareText(s: string)
    requires forall c :: c in s ==> HostChar(c)
    ensures AuthorityOf(s) == s
  {
    assert '/' !in s;
    NoPattern(s);
    BeforePrefix(s, "", EndsAuthority);
    assert s + "" == s;
    if s != "" {
      assert s[0] in s && s[|s| - 1] in s;
    }
  }

  lemma {:induction false} NoPattern(s: string)
    requires '/' !in s
    ensures SplitOnce(s, "://").None?
  {
    if s != "" {
      NoPattern(s[1..]);
    }
  }

  // ----- Host matching ---------------------------------------------------------------------

  function Labels(host: string): seq<string> {
    Split(host, '.')
  }

  predicate ProperSuffix(p: seq<string>, s: seq<string>) {
    |p| < |s| && s[|s| - |p|..] == p
  }

  /** The byte test for a subdomain is the test on dot-separated labels. */
  lemma SubdomainIsLabelSuffix(sub: string, parent: string)
    ensures IsSubdomain(sub, parent) <==> ProperSuffix(Labels(parent), Labels(sub))
  {
    var ls, lp := Labels(sub), Labels(parent);
    if IsSubdomain(sub, parent) {
      var a := sub[..|sub| - |parent| - 1];
      assert sub == a + ['.'] + parent;
      SplitAt(a, parent, '.');
    }
    if ProperSuffix(lp, ls) {
      var front := ls[..|ls| - |lp|];
      assert ls == front + lp;
      JoinConcat(front, lp, '.');
      JoinSplit(sub, '.');
      JoinSplit(parent, '.');
      assert sub == Join(front, '.') + ['.'] + parent;
    }
  }

  predicate Hierarchical(r: Resolver, host: string) {
    '.' in host && !r.isIp(host)
  }

  /** The matching rules on labels: equality, or for dotted non-IP hosts one's labels end the
      other's, or equal registrable domains. The relation is symmetric, and the suffix list
      only adds pairs with equal registrable domains. */
  lemma HostsMatchOnLabels(r: Resolver, a: string, b: string)
    ensures HostsMatch(r, a, b) <==>
              && a != "" && b != ""
              && (|| a == b
                  || (&& Hierarchical(r, a) && Hierarchical(r, b)
                      && (|| ProperSuffix(Labels(a), Labels(b)) || ProperSuffix(Labels(b), Labels(a))
                          || (r.suffixList(a).Some? && r.suffixList(a) == r.suffixList(b)))))
    ensures HostsMatch(r, a, b) <==> HostsMatch(r, b, a)
  {
    SubdomainIsLabelSuffix(a, b);
    SubdomainIsLabelSuffix(b, a);
  }
}
