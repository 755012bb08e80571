/** Full URLs: their pattern, and the URI that the configuration prints. */
module Urls {
  import opened Options
  import opened Decimal
  import opened Target
  import opened TargetRoundTrip
  import opened FlatMapSimulation
  import opened StringOrder

  // The groups of the URL pattern. A group that took no part is the empty string, except the port.
  datatype UrlPieces = UrlPieces(scheme: string, host: string, port: Option<string>, path: string, query: string, fragment: string)

  /** (?::(\d+))?(?:$|/) can go on from here, with `s` the rest of the text up to the first slash. */
  predicate PortTail(s: string) {
    s == "" || (|s| >= 2 && s[0] == ':' && AllDigits(s[1..]))
  }

  /** The fewest characters, but at least one, that the lazy host takes before a port tail. */
  function HostLength(a: string): (n: nat)
    requires a != ""
    ensures 1 <= n <= |a| && PortTail(a[n..])
    ensures forall m :: 1 <= m < n ==> !PortTail(a[m..])
  {
    HostLengthFrom(a, 1)
  }

  function HostLengthFrom(a: string, i: nat): (n: nat)
    requires 1 <= i <= |a|
    ensures i <= n <= |a| && PortTail(a[n..])
    ensures forall m :: i <= m < n ==> !PortTail(a[m..])
    decreases |a| - i
  {
    if PortTail(a[i..]) then i
    else
      assert i < |a|;
      HostLengthFrom(a, i + 1)
  }

  /** The host, and the port if there is one, of a text without slashes. */
  function MatchAuthority(a: string): (string, Option<string>)
    requires a != ""
  {
    var h := HostLength(a);
    (a[..h], if h < |a| then Some(a[h + 1..]) else None)
  }

  /** Path, query and fragment of what follows the slash. */
  function MatchTail(rest: string): (string, string, string) {
    var k := RunLength(rest, PathChar);
    var q := LazyQuery(rest[k..]);
    (rest[..k], rest[k..][..q], rest[k..][q..])
  }

  /** What follows the slash at `n`, if there is one. */
  function AfterSlash(s: string, n: nat): string {
    if n < |s| then s[n + 1..] else ""
  }

  /** Everything after the scheme, unless the host would be empty. */
  function MatchAfterScheme(scheme: string, s: string): Option<UrlPieces> {
    var n := RunLength(s, NotSlash);
    if n == 0 then None
    else
      var (host, port) := MatchAuthority(s[..n]);
      var (path, query, fragment) := MatchTail(AfterSlash(s, n));
      Some(UrlPieces(scheme, host, port, path, query, fragment))
  }

  /** (http[s]?|ftp):// */
  function SchemeOf(s: string): string {
    if "https://" <= s then "https" else if "http://" <= s then "http" else if "ftp://" <= s then "ftp" else ""
  }

  /** The scheme is tried first; without a host after it, it is taken as part of the host. */
  function MatchUrl(s: string): Option<UrlPieces> {
    var scheme := SchemeOf(s);
    var withScheme := if scheme == "" then None else MatchAfterScheme(scheme, s[|scheme| + 3..]);
    if withScheme.Some? then withScheme else MatchAfterScheme("", s)
  }

  /** host, then :port if there is one */
  function Authority(m: UrlPieces): string {
    m.host + if m.port.None? then "" else ":" + m.port.value
  }

  ghost predicate GoodPieces(m: UrlPieces) {
    && m.host != "" && All(m.host, NotSlash) && All(m.path, PathChar)
    && (m.port.Some? ==> m.port.value != "" && AllDigits(m.port.value))
    && (m.fragment == "" || IsFragment(m.fragment))
  }

  /** The pieces, with or without the slash that ends the authority, make up the text. */
  ghost predicate MakesUp(m: UrlPieces, slash: string, s: string) {
    && s == Authority(m) + slash + (m.path + m.query + m.fragment)
    && (slash == "/" || (slash == "" && m.path + m.query + m.fragment == ""))
  }

  /** A text without a scheme matches unless it is empty or starts with a slash. */
  lemma AfterSchemeRebuilds(scheme: string, s: string) returns (slash: string)
    ensures MatchAfterScheme(scheme, s).None? <==> s == "" || s[0] == '/'
    ensures MatchAfterScheme(scheme, s).Some? ==>
              var m := MatchAfterScheme(scheme, s).value;
              m.scheme == scheme && GoodPieces(m) && MakesUp(m, slash, s)
  {
    var n := RunLength(s, NotSlash);
    slash := if n < |s| then "/" else "";
    if n > 0 {
      AfterSchemePieces(scheme, s, n, MatchAfterScheme(scheme, s).value);
      AroundSlash(s, n);
    }
  }

  lemma AuthorityParts(a: string)
    requires a != "" && All(a, NotSlash)
    ensures var (host, port) := MatchAuthority(a);
            && a == host + (if port.None? then "" else ":" + port.value)
            && host != "" && All(host, NotSlash) && (port.Some? ==> port.value != "" && AllDigits(port.value))
  {
    var h := HostLength(a);
    if h < |a| {
      assert a[h..][1..] == a[h + 1..];
      assert a == a[..h] + a[h..] && a[h..] == ":" + a[h + 1..];
    }
  }

  lemma AfterSchemePieces(scheme: string, s: string, n: nat, m: UrlPieces)
    requires n == RunLength(s, NotSlash) > 0 && MatchAfterScheme(scheme, s) == Some(m)
    ensures m.scheme == scheme && GoodPieces(m)
    ensures Authority(m) == s[..n]
    ensures m.path + m.query + m.fragment == AfterSlash(s, n)
  {
    AuthorityParts(s[..n]);
    TailParts(AfterSlash(s, n));
  }

  lemma AroundSlash(s: string, n: nat)
    requires n <= |s| && (n < |s| ==> s[n] == '/')
    ensures s == s[..n] + (if n < |s| then "/" else "") + AfterSlash(s, n)
  {
    if n < |s| {
      assert s[..n + 1] == s[..n] + "/";
      assert s == s[..n + 1] + s[n + 1..];
    } else {
      assert s[..n] == s;
    }
  }

  lemma TailParts(rest: string)
    ensures var (path, query, fragment) := MatchTail(rest);
            rest == path + query + fragment && All(path, PathChar) && GoodFragment(fragment)
  {
    var k := RunLength(rest, PathChar);
    LazyQueryIsShortest(rest[k..]);
    ThreeParts(rest, k, LazyQuery(rest[k..]));
  }

  lemma SchemePrefix(s: string)
    ensures var scheme := SchemeOf(s);
            scheme != "" ==> |scheme| + 3 <= |s| && s[..|scheme| + 3] == scheme + "://" && s[0] != '/'
  {
    assert "https" + "://" == "https://";
    assert "http" + "://" == "http://";
    assert "ftp" + "://" == "ftp://";
  }

  /** What the text after a possible scheme is. */
  function AfterScheme(s: string): string {
    var scheme := SchemeOf(s);
    if |scheme| + 3 <= |s| then s[|scheme| + 3..] else ""
  }

  lemma MatchUrlCases(s: string)
    ensures SchemeOf(s) != "" && MatchAfterScheme(SchemeOf(s), AfterScheme(s)).Some? ==>
              MatchUrl(s) == MatchAfterScheme(SchemeOf(s), AfterScheme(s))
              && s == SchemeOf(s) + "://" + AfterScheme(s)
    ensures !(SchemeOf(s) != "" && MatchAfterScheme(SchemeOf(s), AfterScheme(s)).Some?) ==>
              MatchUrl(s) == MatchAfterScheme("", s)
    ensures SchemeOf(s) != "" ==> s != "" && s[0] != '/'
  {
    SchemePrefix(s);
    if SchemeOf(s) != "" {
      assert s == s[..|SchemeOf(s)| + 3] + s[|SchemeOf(s)| + 3..];
    }
  }

  /**
    A url matches exactly when it is not empty and does not start with a slash. A scheme is taken off
    only if a host follows it; the pieces make up the rest of the url.
  */
  lemma MatchUrlRebuilds(s: string) returns (rest: string, slash: string)
    ensures MatchUrl(s).None? <==> s == "" || s[0] == '/'
    ensures MatchUrl(s).Some? ==>
              var m := MatchUrl(s).value;
              && GoodPieces(m) && MakesUp(m, slash, rest)
              && (if m.scheme == "" then s == rest else m.scheme == SchemeOf(s) && s == m.scheme + "://" + rest)
  {
    MatchUrlCases(s);
    if SchemeOf(s) != "" && MatchAfterScheme(SchemeOf(s), AfterScheme(s)).Some? {
      rest := AfterScheme(s);
      slash := AfterSchemeRebuilds(SchemeOf(s), rest);
    } else {
      rest := s;
      slash := AfterSchemeRebuilds("", s);
    }
  }

  // ---------------------------------------------------------------- the leftmost-first match

  const SCHEMES: seq<string> := ["http", "https", "ftp"]

  /** What the pattern's groups may hold after a scheme: every alternative it could match with. */
  ghost predicate MatchesAfterScheme(s: string, m: UrlPieces) {
    GoodPieces(m) && (MakesUp(m, "", s) || MakesUp(m, "/", s))
  }

  /** Every alternative for a whole url. */
  ghost predicate MatchesUrl(s: string, m: UrlPieces) {
    if m.scheme == "" then MatchesAfterScheme(s, m)
    else m.scheme in SCHEMES && m.scheme + "://" <= s && MatchesAfterScheme(s[|m.scheme| + 3..], m)
  }

  /** The shortest host, then the longest path, then the shortest query. */
  ghost predicate Preferred(f: UrlPieces, m: UrlPieces) {
    || |f.host| < |m.host|
    || (f.host == m.host && f.port == m.port &&
        (|f.path| > |m.path| || (f.path == m.path && |f.query| < |m.query|) || f == m))
  }

  /** In every match the host and its port end at the first slash, or with the text. */
  lemma AuthorityIsRun(s: string, m: UrlPieces, slash: string)
    requires GoodPieces(m) && MakesUp(m, slash, s)
    ensures var n := RunLength(s, NotSlash);
            && n == |Authority(m)| > 0 && s[..n] == Authority(m)
            && m.path + m.query + m.fragment == AfterSlash(s, n)
  {
    AuthorityHasNoSlash(m);
    RunUpToSlash(s, Authority(m), slash, m.path + m.query + m.fragment);
  }

  lemma RunUpToSlash(s: string, a: string, slash: string, rest: string)
    requires s == a + slash + rest && All(a, NotSlash)
    requires slash == "/" || (slash == "" && rest == "")
    ensures RunLength(s, NotSlash) == |a| && s[..|a|] == a && AfterSlash(s, |a|) == rest
  {
    RunLengthIs(s, NotSlash, |a|);
    assert s[|a|..] == slash + rest;
  }

  lemma AuthorityHasNoSlash(m: UrlPieces)
    requires GoodPieces(m)
    ensures All(Authority(m), NotSlash)
  {
    var a := Authority(m);
    forall i | 0 <= i < |a|
      ensures NotSlash(a[i])
    {
      if i > |m.host| { assert IsDigit(m.port.value[i - |m.host| - 1]); }
    }
  }

  /** The shortest host; one that is as long has the same port after it. */
  lemma HostIsFirst(m: UrlPieces)
    requires GoodPieces(m)
    ensures var (host, port) := MatchAuthority(Authority(m));
            |host| < |m.host| || (host == m.host && port == m.port)
  {
    var a := Authority(m);
    assert a[..|m.host|] == m.host;
    if m.port.Some? {
      assert a[|m.host|..] == ":" + m.port.value;
      assert a[|m.host| + 1..] == m.port.value;
    }
    assert PortTail(a[|m.host|..]);
  }

  /** After the authority, the longest path, then the shortest query. */
  lemma TailIsFirst(path: string, query: string, fragment: string)
    requires All(path, PathChar) && GoodFragment(fragment)
    ensures var f := MatchTail(path + query + fragment);
            |f.0| > |path| || (f.0 == path && |f.1| < |query|) || f == (path, query, fragment)
  {
    var rest := path + query + fragment;
    var k := RunLength(rest, PathChar);
    assert rest == path + (query + fragment);
    EndOf(rest, path, query + fragment);
    RunAtLeast(rest, |path|);
    if k == |path| {
      LazyQueryIsFirst(query, fragment);
    }
  }

  lemma LazyQueryIsFirst(query: string, fragment: string)
    requires GoodFragment(fragment)
    ensures var tail := query + fragment;
            var q := LazyQuery(tail);
            q < |query| || (tail[..q] == query && tail[q..] == fragment)
  {
    LazyQueryIsShortest(query + fragment);
    EndOf(query + fragment, query, fragment);
  }

  lemma RunAtLeast(s: string, n: nat)
    requires n <= |s| && All(s[..n], PathChar)
    ensures RunLength(s, PathChar) >= n
  {
    assert forall i :: 0 <= i < n ==> s[i] == s[..n][i];
  }

  /** After a scheme, no match comes before the one that is taken. */
  lemma AfterSchemeIsFirst(scheme: string, s: string, m: UrlPieces)
    requires m.scheme == scheme && MatchesAfterScheme(s, m)
    ensures MatchAfterScheme(scheme, s).Some? && Preferred(MatchAfterScheme(scheme, s).value, m)
  {
    AuthorityIsRun(s, m, if MakesUp(m, "", s) then "" else "/");
    HostIsFirst(m);
    TailIsFirst(m.path, m.query, m.fragment);
  }

  /**
    The match is the leftmost-first one: a scheme if there can be one, then the shortest host, then the
    longest path, then the shortest query, of all ways in which the pattern matches the url.
  */
  lemma UrlMatchIsFirst(s: string, m: UrlPieces)
    requires MatchesUrl(s, m)
    ensures MatchUrl(s).Some?
    ensures var f := MatchUrl(s).value;
            (f.scheme != "" && m.scheme == "") || (f.scheme == m.scheme && Preferred(f, m))
  {
    MatchUrlCases(s);
    if m.scheme == "" {
      AfterSchemeIsFirst("", s, m);
      if SchemeOf(s) != "" && MatchAfterScheme(SchemeOf(s), AfterScheme(s)).Some? {
        AfterSchemePieces(SchemeOf(s), AfterScheme(s), RunLength(AfterScheme(s), NotSlash), MatchUrl(s).value);
      }
    } else {
      SchemeIs(s, m.scheme);
      AfterSchemeIsFirst(m.scheme, s[|m.scheme| + 3..], m);
    }
  }

  lemma SchemeIs(s: string, scheme: string)
    requires scheme in SCHEMES && scheme + "://" <= s
    ensures SchemeOf(s) == scheme
  {
    assert "https" + "://" == "https://";
    assert "http" + "://" == "http://";
    assert "ftp" + "://" == "ftp://";
    if scheme == "http" { assert s[4] == "http://"[4]; }
    if scheme == "ftp" { assert s[0] == "ftp://"[0]; }
  }

  /** And it is a match. */
  lemma {:induction false} MatchUrlMatches(s: string)
    ensures MatchUrl(s).Some? ==> MatchesUrl(s, MatchUrl(s).value)
  {
    var rest, slash := MatchUrlRebuilds(s);
    if MatchUrl(s).Some? && MatchUrl(s).value.scheme != "" {
      var m := MatchUrl(s).value;
      assert s[..|m.scheme| + 3] == m.scheme + "://";
      assert s[|m.scheme| + 3..] == rest;
    }
  }

  // ---------------------------------------------------------------- the path of a full url

  /** The longest path is what a target with the same text after the slash has, without that slash. */
  lemma TargetOfTail(rest: string)
    ensures var k := RunLength(rest, PathChar);
            SplitTarget("/" + rest).path == if k == 0 then "" else "/" + rest[..k]
  {
    assert ("/" + rest)[1..] == rest;
  }

  /**
    A url's path has the parts that the same text has as a target exactly when it is empty or starts
    with a second slash; otherwise its first part is lost.
  */
  lemma {:induction false} UrlKeepsPartsIff(s: string)
    ensures MatchUrl(s).Some? ==>
              var m := MatchUrl(s).value;
              PathParts(m.path) == PathParts(SplitTarget("/" + (m.path + m.query + m.fragment)).path)
              <==> m.path == "" || m.path[0] == '/'
  {
    if MatchUrl(s).Some? {
      var m := MatchUrl(s).value;
      UrlPathIsRun(s);
      TargetOfTail(m.path + m.query + m.fragment);
      LeadingSlashIff(m.path);
    }
  }

  lemma UrlPathIsRun(s: string)
    requires MatchUrl(s).Some?
    ensures var m := MatchUrl(s).value;
            && RunLength(m.path + m.query + m.fragment, PathChar) == |m.path|
            && (m.path + m.query + m.fragment)[..|m.path|] == m.path
  {
    MatchUrlCases(s);
    var t := if SchemeOf(s) != "" && MatchAfterScheme(SchemeOf(s), AfterScheme(s)).Some? then AfterScheme(s) else s;
    TailPathIsRun(AfterSlash(t, RunLength(t, NotSlash)));
  }

  lemma TailPathIsRun(rest: string)
    ensures var (path, query, fragment) := MatchTail(rest);
            path + query + fragment == rest && RunLength(rest, PathChar) == |path| && rest[..|path|] == path
  {
    TailParts(rest);
  }

  // ---------------------------------------------------------------- printing a full url

  /** The host is not taken for a host with a port. */
  ghost predicate HostStops(host: string, port: Option<string>) {
    port.Some? || forall i :: 1 <= i < |host| ==> !PortTail(host[i..])
  }

  /** The pieces are those of a url that can be told apart again. */
  ghost predicate Printable(m: UrlPieces) {
    && m.scheme in SCHEMES && GoodPieces(m) && HostStops(m.host, m.port)
    && (m.query == "" || m.query[0] == '?') && '#' !in m.query
  }

  function PrintUrl(m: UrlPieces): string {
    m.scheme + "://" + (Authority(m) + "/" + (m.path + m.query + m.fragment))
  }

  lemma HostLengthIs(m: UrlPieces)
    requires GoodPieces(m) && HostStops(m.host, m.port)
    ensures HostLength(Authority(m)) == |m.host|
  {
    if m.port.Some? {
      HostBeforePort(m.host, m.port.value);
      assert Authority(m) == m.host + ":" + m.port.value;
    } else {
      assert Authority(m) == m.host;
    }
  }

  lemma TailPieces(path: string, query: string, fragment: string)
    requires All(path, PathChar) && (query == "" || query[0] == '?') && '#' !in query && GoodFragment(fragment)
    ensures MatchTail(path + query + fragment) == (path, query, fragment)
  {
    var tail := query + fragment;
    var rest := path + query + fragment;
    assert rest == path + tail;
    EndOf(rest, path, tail);
    assert tail != "" ==> rest[|path|] == tail[0];
    RunLengthIs(rest, PathChar, |path|);
    LazyQueryOf(query, fragment);
    EndOf(tail, query, fragment);
  }

  lemma AuthorityPieces(m: UrlPieces)
    requires GoodPieces(m) && HostStops(m.host, m.port)
    ensures MatchAuthority(Authority(m)) == (m.host, m.port)
  {
    HostLengthIs(m);
    HostIsFirst(m);
  }

  /** A text made up of distinguishable pieces is matched as those pieces. */
  lemma MatchMadeUp(m: UrlPieces, slash: string, s: string)
    requires Printable(m) && MakesUp(m, slash, s)
    ensures MatchAfterScheme(m.scheme, s) == Some(m)
  {
    AuthorityIsRun(s, m, slash);
    AuthorityPieces(m);
    TailPieces(m.path, m.query, m.fragment);
  }

  /** Printing a full url and matching it gives its pieces back. */
  lemma {:induction false} MatchOfPrinted(m: UrlPieces)
    requires Printable(m)
    ensures MatchUrl(PrintUrl(m)) == Some(m)
  {
    var s, rest := PrintUrl(m), Authority(m) + "/" + (m.path + m.query + m.fragment);
    assert m.scheme + "://" <= s && s[|m.scheme| + 3..] == rest;
    SchemeIs(s, m.scheme);
    MatchMadeUp(m, "/", rest);
  }

  // What a printed target is made of.
  datatype TargetText = TargetText(parts: seq<string>, pairs: seq<(string, string)>, sep: char, fragment: string)

  ghost predicate GoodTarget(t: TargetText) {
    && (forall i :: 0 <= i < |t.parts| ==> GoodPart(t.parts[i]))
    && (forall i :: 0 <= i < |t.pairs| ==> GoodPair(t.pairs[i]))
    && (t.sep == '&' || t.sep == ';') && GoodFragment(t.fragment)
  }

  function Printed(t: TargetText): string {
    PrintTarget(t.parts, t.pairs, t.sep, t.fragment)
  }

  /** The pieces of a full url whose authority is followed by a printed target. */
  function PiecesOf(scheme: string, host: string, port: Option<string>, t: TargetText): UrlPieces {
    var path := PrintPath(t.parts);
    UrlPieces(scheme, host, port, if path == "" then "" else path[1..], PrintQuery(t.pairs, t.sep), t.fragment)
  }

  ghost predicate GoodAuthority(scheme: string, host: string, port: Option<string>) {
    && scheme in SCHEMES && host != "" && All(host, NotSlash) && HostStops(host, port)
    && (port.Some? ==> port.value != "" && AllDigits(port.value))
  }

  lemma PiecesPrintable(scheme: string, host: string, port: Option<string>, t: TargetText)
    requires GoodAuthority(scheme, host, port) && GoodTarget(t)
    ensures Printable(PiecesOf(scheme, host, port, t))
  {
    PrintPathShape(t.parts);
    PrintPairsHasNoHash(t.pairs, t.sep);
    var q := PrintQuery(t.pairs, t.sep);
    assert q != "" ==> q[0] == '?';
  }

  lemma RegroupUrl(a: string, path: string, query: string, fragment: string)
    requires path != "" && path[0] == '/'
    ensures a + "/" + (path[1..] + query + fragment) == a + (path + query + fragment)
  {
    assert path == "/" + path[1..];
  }

  lemma PrintedUrl(scheme: string, host: string, port: Option<string>, t: TargetText)
    requires GoodTarget(t) && t.parts != []
    ensures var m := PiecesOf(scheme, host, port, t);
            PrintUrl(m) == scheme + "://" + (Authority(m) + Printed(t))
  {
    var m := PiecesOf(scheme, host, port, t);
    PrintPathShape(t.parts);
    RegroupUrl(Authority(m), PrintPath(t.parts), m.query, m.fragment);
  }

  lemma PartsOfPieces(scheme: string, host: string, port: Option<string>, t: TargetText)
    requires GoodTarget(t) && t.parts != []
    ensures PathParts(PiecesOf(scheme, host, port, t).path) == t.parts[1..]
  {
    assert [t.parts[0]] + t.parts[1..] == t.parts;
    FirstPartSkipped(t.parts[0], t.parts[1..]);
    assert PrintPath(t.parts)[1..] == t.parts[0] + PrintPath(t.parts[1..]);
  }

  lemma PairsOfPieces(scheme: string, host: string, port: Option<string>, t: TargetText)
    requires GoodTarget(t)
    ensures QueryPairs(PiecesOf(scheme, host, port, t).query) == t.pairs
  {
    PairsOfPrinted(t.pairs, t.sep);
    if t.pairs != [] {
      assert PrintQuery(t.pairs, t.sep)[1..] == PrintPairs(t.pairs, t.sep);
    }
  }

  /**
    The round trip of a full url keeps scheme, host, port, pairs and fragment, and loses exactly the
    first of the path parts that are read back from the same target by itself.
  */
  lemma {:induction false} UrlPathLosesFirstPart(scheme: string, host: string, port: Option<string>, t: TargetText)
    requires GoodAuthority(scheme, host, port) && GoodTarget(t) && t.parts != []
    ensures var authority := host + if port.None? then "" else ":" + port.value;
            var m := MatchUrl(scheme + "://" + (authority + Printed(t)));
            && PathParts(SplitTarget(Printed(t)).path) == t.parts
            && m.Some? && PathParts(m.value.path) == t.parts[1..]
            && m.value.scheme == scheme && m.value.host == host && m.value.port == port
            && QueryPairs(m.value.query) == t.pairs && m.value.fragment == t.fragment
  {
    PiecesPrintable(scheme, host, port, t);
    MatchOfPrinted(PiecesOf(scheme, host, port, t));
    PrintedUrl(scheme, host, port, t);
    PartsOfPieces(scheme, host, port, t);
    PairsOfPieces(scheme, host, port, t);
    TargetRoundTrips(t.parts, t.pairs, t.sep, t.fragment);
  }

  /**
    Host and port survive exactly when a path follows them, or nothing at all: a query or a fragment
    right after them is taken into the host.
  */
  lemma {:induction false} UrlKeepsAuthorityIff(scheme: string, host: string, port: Option<string>, t: TargetText)
    requires GoodAuthority(scheme, host, port) && GoodTarget(t)
    ensures var authority := host + if port.None? then "" else ":" + port.value;
            var m := MatchUrl(scheme + "://" + (authority + Printed(t)));
            && m.Some? && m.value.scheme == scheme
            && (m.value.host == host && m.value.port == port <==> t.parts != [] || Printed(t) == "")
  {
    if t.parts != [] {
      UrlPathLosesFirstPart(scheme, host, port, t);
    } else {
      var m := UrlPieces(scheme, host, port, "", "", "");
      AfterPrintedScheme(scheme, Authority(m) + Printed(t));
      AuthorityHasNoSlash(m);
      if Printed(t) == "" {
        PiecesPrintable(scheme, host, port, t);
        assert Authority(m) + Printed(t) == Authority(m);
        MatchMadeUp(m, "", Authority(m));
      } else {
        PrintedWithoutParts(t);
        AuthorityGoesOn(Authority(m), Printed(t));
        AuthorityParts((Authority(m) + Printed(t))[..RunLength(Authority(m) + Printed(t), NotSlash)]);
      }
    }
  }

  lemma AfterPrintedScheme(scheme: string, rest: string)
    requires scheme in SCHEMES && rest != "" && rest[0] != '/'
    ensures MatchUrl(scheme + "://" + rest) == MatchAfterScheme(scheme, rest)
    ensures MatchAfterScheme(scheme, rest).Some?
  {
    var s := scheme + "://" + rest;
    assert scheme + "://" <= s && s[|scheme| + 3..] == rest;
    SchemeIs(s, scheme);
  }

  lemma PrintedWithoutParts(t: TargetText)
    requires GoodTarget(t) && t.parts == [] && Printed(t) != ""
    ensures Printed(t)[0] != '/'
  {
    var q := PrintQuery(t.pairs, t.sep);
    assert Printed(t) == q + t.fragment;
    assert q != "" ==> q[0] == '?';
  }

  lemma AuthorityGoesOn(a: string, tail: string)
    requires a != "" && All(a, NotSlash) && tail != "" && tail[0] != '/'
    ensures var n := RunLength(a + tail, NotSlash);
            n > |a| && All((a + tail)[..n], NotSlash)
  {
    var s, n := a + tail, RunLength(a + tail, NotSlash);
    assert forall i :: 0 <= i < |a| ==> s[i] == a[i];
    assert s[|a|] == tail[0];
    assert forall i :: 0 <= i < n ==> s[..n][i] == s[i];
  }

  const ULONG_MAX: nat := 0xffff_ffff_ffff_ffff

  /** strtoul into an unsigned short. */
  function PortNumber(digits: string): nat
    requires AllDigits(digits)
  {
    (if DecimalValue(digits) > ULONG_MAX then ULONG_MAX else DecimalValue(digits)) % 0x1_0000
  }

  /** A port past the range of a short is reduced, and one past the range of a long counts as the largest long. */
  lemma AnyPort(n: nat)
    ensures AllDigits(ToDecimal(n))
    ensures PortNumber(ToDecimal(n)) == if n <= 0xffff_ffff_ffff_ffff then n % 65536 else 65535
  {
    ToDecimalRoundTrip(n);
  }

  /** The schemes are these three. */
  lemma SchemeTaken(scheme: string, s: string)
    requires scheme == "http" || scheme == "https" || scheme == "ftp"
    requires s != "" && s[0] != '/'
    ensures MatchUrl(scheme + "://" + s).Some? && MatchUrl(scheme + "://" + s).value.scheme == scheme
  {
    assert scheme in SCHEMES;
    AfterPrintedScheme(scheme, s);
  }

  lemma SchemeIsNamed(s: string)
    ensures SchemeOf(s) == "" || SchemeOf(s) == "http" || SchemeOf(s) == "https" || SchemeOf(s) == "ftp"
  {
  }

  lemma SchemeOfMatch(s: string)
    ensures MatchUrl(s).Some? ==> MatchUrl(s).value.scheme == "" || MatchUrl(s).value.scheme == SchemeOf(s)
  {
    MatchUrlCases(s);
  }

  lemma NoOtherScheme(s: string)
    ensures MatchUrl(s).Some? ==>
              var scheme := MatchUrl(s).value.scheme;
              scheme == "" || scheme == "http" || scheme == "https" || scheme == "ftp"
  {
    SchemeIsNamed(s);
    SchemeOfMatch(s);
  }

  class URLParser {
    const target: TargetParser  // the base class part
    var scheme: string
    var host: string
    var port: nat

    ghost predicate Valid()
      reads this, target, target.queries
    {
      target.Valid()
    }

    constructor ()
      ensures Valid() && fresh(target) && fresh(target.queries)
      ensures scheme == "" && host == "" && port == 0 && target.pathParts == []
    {
      target := new TargetParser();
      scheme, host, port := "", "", 0;
    }

    /** The port keeps its old value when the url has none. */
    method SetURL(sv: string)
      requires Valid()
      modifies this, target, target.queries
      ensures Valid() && target.url == sv
      ensures MatchUrl(sv).Some? ==>
                var m := MatchUrl(sv).value;
                && scheme == m.scheme && host == m.host && target.path == m.path
                && (m.port.Some? ==> AllDigits(m.port.value) && port == PortNumber(m.port.value))
                && (m.port.None? ==> port == old(port))
                && target.pathParts == old(target.pathParts) + PathParts(m.path)
                && target.queries.Items() == SortedBuild(QueryPairs(m.query), Less(), "")
      ensures MatchUrl(sv).None? ==>
                scheme == "" && host == "" && target.path == "" && port == old(port)
                && target.pathParts == old(target.pathParts) && target.queries.Items() == []
    {
      target.url := sv;
      target.queries.Clear();
      ghost var _, _ := MatchUrlRebuilds(sv);
      var m := MatchUrl(sv);
      if m.None? {
        ParseAll(UrlPieces("", "", None, "", "", ""));
        assert target.pathParts == old(target.pathParts) + [];
      } else {
        ParseAll(m.value);
      }
    }

    /** Takes the pieces over; a match that failed has only empty ones. */
    method ParseAll(m: UrlPieces)
      requires Valid() && (m.port.Some? ==> AllDigits(m.port.value))
      modifies this, target`path, target`pathParts, target.queries
      ensures Valid() && scheme == m.scheme && host == m.host && target.path == m.path
      ensures port == if m.port.Some? then PortNumber(m.port.value) else old(port)
      ensures target.pathParts == old(target.pathParts) + PathParts(m.path)
      ensures target.queries.Items() == SortedBuild(QueryPairs(m.query), Less(), "")
    {
      scheme, host := m.scheme, m.host;
      if m.port.Some? {
        port := PortNumber(m.port.value);
      }
      target.path := m.path;
      target.ParseQueries(m.query);
    }
  }

  /** Only the part of the configuration that prints the address. */
  class IniConfig {
    var httpURI: string
    var httpAddress: string
    var httpPort: nat

    constructor (address: string, port: nat)
      ensures httpAddress == address && httpPort == port
    {
      httpURI, httpAddress, httpPort := "", address, port;
    }

    method BuildHttpURI()
      modifies this`httpURI
      ensures httpURI == "http://" + httpAddress + ":" + ToDecimal(httpPort)
    {
      httpURI := "";
      httpURI := httpURI + "http://";
      httpURI := httpURI + (httpAddress + ":" + ToDecimal(httpPort));
      assert httpURI == "http://" + httpAddress + ":" + ToDecimal(httpPort);
    }
  }

  /** The lazy host stops before the last colon, whatever colons the address contains. */
  lemma HostBeforePort(address: string, digits: string)
    requires address != "" && digits != "" && AllDigits(digits)
    ensures HostLength(address + ":" + digits) == |address|
  {
    var a, n := address + ":" + digits, |address|;
    assert a[n..] == ":" + digits;
    forall m | 1 <= m < n
      ensures !PortTail(a[m..])
    {
      assert a[m..][1..][n - m - 1] == ':';
    }
  }

  /** A url without a path. */
  lemma MatchPrinted(address: string, digits: string)
    requires address != "" && '/' !in address && digits != "" && AllDigits(digits)
    ensures MatchUrl("http://" + address + ":" + digits) == Some(UrlPieces("http", address, Some(digits), "", "", ""))
  {
    var s, m := "http://" + address + ":" + digits, UrlPieces("http", address, Some(digits), "", "", "");
    assert "http" + "://" == "http://";
    assert s[7..] == address + ":" + digits && Authority(m) == address + ":" + digits;
    SchemeIs(s, "http");
    MatchMadeUp(m, "", s[7..]);
  }

  lemma PrintedPort(port: nat)
    requires port <= 65535
    ensures AllDigits(ToDecimal(port)) && PortNumber(ToDecimal(port)) == port
  {
    ToDecimalRoundTrip(port);
  }

  /** Parsing the printed address gives the scheme, that exact address, and the port. */
  method HttpUriRoundTrip(address: string, port: nat) returns (parser: URLParser)
    requires address != "" && '/' !in address && port <= 65535
    ensures fresh(parser) && parser.scheme == "http" && parser.host == address && parser.port == port
  {
    var config := new IniConfig(address, port);
    config.BuildHttpURI();
    PrintedPort(port);
    MatchPrinted(address, ToDecimal(port));
    var uri := config.httpURI;
    ghost var pieces := MatchUrl(uri);
    assert pieces == Some(UrlPieces("http", address, Some(ToDecimal(port)), "", "", ""));
    parser := new URLParser();
    parser.SetURL(uri);
  }

  /** The round trip of a full url through the parser object. */
  method ParsePrintedUrl(scheme: string, host: string, port: nat, t: TargetText) returns (parser: URLParser)
    requires scheme in SCHEMES && host != "" && All(host, NotSlash) && port <= 65535
    requires GoodTarget(t) && t.parts != []
    ensures fresh(parser) && parser.Valid()
    ensures parser.scheme == scheme && parser.host == host && parser.port == port
    ensures parser.target.pathParts == t.parts[1..]
    ensures parser.target.queries.Items() == SortedBuild(t.pairs, Less(), "")
  {
    var digits := ToDecimal(port);
    PrintedPort(port);
    UrlPathLosesFirstPart(scheme, host, Some(digits), t);
    parser := new URLParser();
    parser.SetURL(scheme + "://" + ((host + (":" + digits)) + Printed(t)));
  }
}
