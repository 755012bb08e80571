/** Splitting a request target into path, query and fragment, and reading its parts. */
module Target {
  import opened Options
  import opened FlatMapSpec
  import opened FlatMapSimulation
  import opened SortedFlatMaps
  import opened StringOrder

  // ---------------------------------------------------------------- character classes

  predicate Space(c: char) {
    c == ' ' || '\t' <= c <= '\r'
  }

  /** [^#?\s] */
  predicate PathChar(c: char) {
    c != '#' && c != '?' && !Space(c)
  }

  predicate NotSlash(c: char) {
    c != '/'
  }

  /** [^=&;] */
  predicate PairChar(c: char) {
    c != '=' && c != '&' && c != ';'
  }

  /** [A-Za-z_\-] */
  predicate FragmentChar(c: char) {
    'A' <= c <= 'Z' || 'a' <= c <= 'z' || c == '_' || c == '-'
  }

  /** The classes by their members; letters by their codes. */
  lemma CharClasses(c: char)
    ensures PathChar(c) <==> c !in "#? \t\n\U{B}\U{C}\r"
    ensures NotSlash(c) <==> c !in "/"
    ensures PairChar(c) <==> c !in "=&;"
    ensures FragmentChar(c) <==> 65 <= c as int <= 90 || 97 <= c as int <= 122 || c in "_-"
  {
  }

  ghost predicate All(s: string, p: char -> bool) {
    forall i :: 0 <= i < |s| ==> p(s[i])
  }

  /** Length of the longest prefix of characters in a class: what a greedy repetition takes. */
  function RunLength(s: string, p: char -> bool): (n: nat)
    ensures n <= |s| && forall i :: 0 <= i < n ==> p(s[i])
    ensures n < |s| ==> !p(s[n])
  {
    if s == "" || !p(s[0]) then 0
    else
      var n := RunLength(s[1..], p);
      assert forall i :: 0 < i < |s| ==> s[i] == s[1..][i - 1];
      1 + n
  }

  /** A run ends with the string or at the first character outside its class. */
  lemma {:induction false} RunLengthIs(s: string, p: char -> bool, n: nat)
    requires n <= |s| && (forall i :: 0 <= i < n ==> p(s[i])) && (n < |s| ==> !p(s[n]))
    ensures RunLength(s, p) == n
  {
    if n > 0 {
      assert forall i :: 0 <= i < |s| - 1 ==> s[1..][i] == s[i + 1];
      RunLengthIs(s[1..], p, n - 1);
    }
  }

  // ---------------------------------------------------------------- the target pattern

  datatype Pieces = Pieces(path: string, query: string, fragment: string)

  /** #[A-Za-z_\-]+ up to the end */
  predicate IsFragment(s: string) {
    |s| >= 2 && s[0] == '#' && forall i :: 1 <= i < |s| ==> FragmentChar(s[i])
  }

  /** How much a lazy repetition takes before an optional fragment and the end. */
  function LazyQuery(s: string): (n: nat)
    ensures n <= |s|
  {
    if s == "" || IsFragment(s) then 0 else 1 + LazyQuery(s[1..])
  }

  /** A slash and the run of path characters after it, if there is one. */
  function PathLength(sv: string): (n: nat)
    ensures n <= |sv|
  {
    if sv != "" && sv[0] == '/' && RunLength(sv[1..], PathChar) > 0 then 1 + RunLength(sv[1..], PathChar) else 0
  }

  function SplitTarget(sv: string): Pieces {
    var n := PathLength(sv);
    var rest := sv[n..];
    var q := LazyQuery(rest);
    Pieces(sv[..n], rest[..q], rest[q..])
  }

  /** What the pattern's groups may hold: every alternative it could match with. */
  ghost predicate Matches(sv: string, p: Pieces) {
    && sv == p.path + p.query + p.fragment
    && (p.path == "" || (|p.path| >= 2 && p.path[0] == '/' && All(p.path[1..], PathChar)))
    && (p.fragment == "" || IsFragment(p.fragment))
  }

  lemma {:induction false} LazyQueryIsShortest(s: string)
    ensures s[LazyQuery(s)..] == "" || IsFragment(s[LazyQuery(s)..])
    ensures forall n :: 0 <= n < LazyQuery(s) ==> !(s[n..] == "" || IsFragment(s[n..]))
  {
    if s != "" && !IsFragment(s) {
      LazyQueryIsShortest(s[1..]);
      var m := LazyQuery(s[1..]);
      assert s[1..][m..] == s[m + 1..];
      forall n | 0 <= n < LazyQuery(s)
        ensures !(s[n..] == "" || IsFragment(s[n..]))
      {
        if n > 0 { assert s[1..][n - 1..] == s[n..]; }
      }
    }
  }

  /** The split matches the pattern. */
  lemma SplitTargetMatches(sv: string)
    ensures Matches(sv, SplitTarget(sv))
  {
    var n := PathLength(sv);
    var rest := sv[n..];
    LazyQueryIsShortest(rest);
    ThreeParts(sv, n, LazyQuery(rest));
    PathShape(sv);
  }

  lemma ThreeParts(sv: string, n: nat, q: nat)
    requires n <= |sv| && q <= |sv| - n
    ensures sv == sv[..n] + sv[n..][..q] + sv[n..][q..]
  {
    assert sv == sv[..n] + sv[n..];
  }

  lemma PathShape(sv: string)
    ensures var p := sv[..PathLength(sv)];
            p == "" || (|p| >= 2 && p[0] == '/' && All(p[1..], PathChar))
  {
    var n := PathLength(sv);
    forall i | 1 <= i < n
      ensures PathChar(sv[i])
    {
      assert sv[i] == sv[1..][i - 1];
    }
  }

  /** No match has a longer path. */
  lemma PathIsLongest(sv: string, p: Pieces)
    requires Matches(sv, p)
    ensures |p.path| <= |SplitTarget(sv).path|
  {
    if p.path != "" {
      var m := RunLength(sv[1..], PathChar);
      assert sv[..|p.path|] == p.path;
      forall i | 1 <= i < |p.path|
        ensures PathChar(sv[i])
      {
        assert sv[i] == p.path[1..][i - 1];
      }
      assert m < |sv| - 1 ==> sv[1..][m] == sv[m + 1];
    }
  }

  lemma EndOf(s: string, a: string, b: string)
    requires s == a + b
    ensures s[..|a|] == a && s[|a|..] == b
  {
  }

  lemma LazyQueryAtMost(query: string, fragment: string)
    requires fragment == "" || IsFragment(fragment)
    ensures LazyQuery(query + fragment) <= |query|
  {
    LazyQueryIsShortest(query + fragment);
    EndOf(query + fragment, query, fragment);
  }

  /** Of the matches with that path, none has a shorter query. */
  lemma QueryIsShortest(sv: string, p: Pieces)
    requires Matches(sv, p) && p.path == SplitTarget(sv).path
    ensures |p.query| >= |SplitTarget(sv).query|
  {
    assert sv[PathLength(sv)..] == p.query + p.fragment;
    LazyQueryAtMost(p.query, p.fragment);
  }

  /** So the split is the one match that takes the longest path, then the shortest query. */
  lemma SplitTargetIsFirst(sv: string, p: Pieces)
    requires Matches(sv, p)
    ensures var f := SplitTarget(sv);
            |f.path| > |p.path| || (f.path == p.path && |f.query| < |p.query|) || f == p
  {
    var f := SplitTarget(sv);
    PathIsLongest(sv, p);
    SplitTargetMatches(sv);
    if |f.path| == |p.path| {
      assert sv[..|p.path|] == p.path && sv[..|f.path|] == f.path;
      QueryIsShortest(sv, p);
      SamePathAndQuery(sv, p, f);
    }
  }

  lemma SamePathAndQuery(sv: string, p: Pieces, q: Pieces)
    requires Matches(sv, p) && Matches(sv, q) && p.path == q.path
    ensures |p.query| == |q.query| ==> p == q
  {
    var rest := sv[|p.path|..];
    assert rest == p.query + p.fragment && rest == q.query + q.fragment;
    if |p.query| == |q.query| {
      assert p.query == rest[..|p.query|] == q.query;
      assert p.fragment == rest[|p.query|..] == q.fragment;
    }
  }

  // ---------------------------------------------------------------- path parts and query pairs

  /** Every match of /([^/]+) in the path, from left to right. */
  function PathParts(path: string): seq<string>
    decreases |path|
  {
    if path == "" then []
    else
      var n := if path[0] == '/' then RunLength(path[1..], NotSlash) else 0;
      if n > 0 then [path[1..1 + n]] + PathParts(path[1 + n..]) else PathParts(path[1..])
  }

  // One match of [&;]?([^=&;]+)=?([^=&;]*): its groups and the end of the match.
  datatype PairMatch = PairMatch(name: string, value: string, end: nat)

  function MatchPair(s: string): (m: PairMatch)
    requires s != "" && PairChar(s[0])
    ensures 0 < m.end <= |s|
  {
    var n := RunLength(s, PairChar);
    if n < |s| && s[n] == '=' then
      var k := RunLength(s[n + 1..], PairChar);
      PairMatch(s[..n], s[n + 1..n + 1 + k], n + 1 + k)
    else PairMatch(s[..n], "", n)
  }

  /**
    Every match of the pair pattern, from left to right. The optional leading separator is not in a
    group, and a separator that starts no match is passed over, so both are skipped alike.
  */
  function Pairs(s: string): seq<(string, string)>
    decreases |s|
  {
    if s == "" then []
    else if !PairChar(s[0]) then Pairs(s[1..])
    else
      var m := MatchPair(s);
      [(m.name, m.value)] + Pairs(s[m.end..])
  }

  /** The pairs of a query: its first character, a question mark, is dropped unseen. */
  function QueryPairs(query: string): seq<(string, string)> {
    if query == "" then [] else Pairs(query[1..])
  }

  /** The value of the first pair with a name. */
  function FirstValue(pairs: seq<(string, string)>, key: string): (r: Option<string>)
    ensures r.None? ==> forall i :: 0 <= i < |pairs| ==> pairs[i].0 != key
    ensures r.Some? ==> exists i :: 0 <= i < |pairs| && pairs[i] == (key, r.value)
                                    && forall j :: 0 <= j < i ==> pairs[j].0 != key
    decreases |pairs|
  {
    if pairs == [] then None
    else if pairs[0].0 == key then Some(pairs[0].1)
    else
      var rest := pairs[1..];
      var r := FirstValue(rest, key);
      assert forall i :: 0 < i < |pairs| ==> pairs[i] == rest[i - 1];
      assert forall i :: 0 <= i < |rest| ==> rest[i] == pairs[i + 1];
      r
  }

  // ---------------------------------------------------------------- the parser

  method NewQueries() returns (m: FlatMap<string, string>)
    ensures fresh(m) && m.Valid() && m.Items() == [] && m.lt == Less() && m.dflt == ""
  {
    LessIsTotal();
    m := new FlatMap(Less(), "");
  }

  class TargetParser {
    var url: string
    var path: string
    var pathParts: seq<string>
    const queries: FlatMap<string, string>

    ghost predicate Valid()
      reads this, queries
    {
      queries.Valid() && queries.lt == Less() && queries.dflt == ""
    }

    /** The parser holds what its url splits into. */
    ghost predicate Parsed()
      reads this, queries
    {
      && Valid()
      && path == SplitTarget(url).path
      && queries.Items() == SortedBuild(QueryPairs(SplitTarget(url).query), Less(), "")
    }

    constructor ()
      ensures Valid() && fresh(queries)
      ensures url == "" && path == "" && pathParts == [] && queries.Items() == []
    {
      url, path, pathParts := "", "", [];
      var empty := NewQueries();
      queries := empty;
    }

    constructor FromUrl(url: string)
      ensures Parsed() && fresh(queries)
      ensures this.url == url && pathParts == PathParts(SplitTarget(url).path)
    {
      this.url, path, pathParts := url, "", [];
      var empty := NewQueries();
      queries := empty;
      new;
      Parse();
    }

    method Match() returns (query: string)
      modifies this`path
      ensures path == SplitTarget(url).path && query == SplitTarget(url).query
    {
      var pieces := SplitTarget(url);
      path := pieces.path;
      return pieces.query;
    }

    /** Appends to the path parts that are there already; the queries start afresh. */
    method ParseQueries(svQuery: string)
      requires Valid()
      modifies this`pathParts, queries
      ensures Valid()
      ensures pathParts == old(pathParts) + PathParts(path)
      ensures queries.Items() == SortedBuild(QueryPairs(svQuery), Less(), "")
    {
      queries.Clear();
      var parts := PathParts(path);
      for i := 0 to |parts|
        invariant Valid() && queries.Items() == []
        invariant pathParts == old(pathParts) + parts[..i]
      {
        pathParts := pathParts + [parts[i]];
      }
      assert parts[..|parts|] == parts;
      var pairs := QueryPairs(svQuery);
      for i := 0 to |pairs|
        invariant Valid() && pathParts == old(pathParts) + parts
        invariant queries.Items() == SortedBuild(pairs[..i], Less(), "")
      {
        assert pairs[..i + 1][..i] == pairs[..i];
        var _, _ := queries.Emplace(pairs[i].0, pairs[i].1);
      }
      assert pairs[..|pairs|] == pairs;
    }

    method Parse()
      requires Valid()
      modifies this`path, this`pathParts, queries
      ensures Parsed()
      ensures pathParts == old(pathParts) + PathParts(path)
    {
      var query := Match();
      ParseQueries(query);
    }

    method SetURL(sv: string)
      requires Valid()
      modifies this, queries
      ensures Parsed() && url == sv
      ensures pathParts == old(pathParts) + PathParts(path)
    {
      url := sv;
      Parse();
    }

    /** operator[]: no value is the null view, which is not the same as an empty value. */
    method Lookup(key: string) returns (val: Option<string>)
      requires Parsed()
      ensures val == FirstValue(QueryPairs(SplitTarget(url).query), key)
    {
      LookupInBuild(QueryPairs(SplitTarget(url).query), key);
      var it := queries.Find(key);
      if it != |queries.values| {
        return Some(queries.values[it].1);
      }
      return None;
    }

    method GetBool(key: string) returns (r: Option<bool>)
      requires Parsed()
      ensures var val := FirstValue(QueryPairs(SplitTarget(url).query), key);
              && (r == Some(true) <==> val == Some("") || val == Some("1") || val == Some("yes") || val == Some("true"))
              && (r == Some(false) <==> val == Some("0") || val == Some("no") || val == Some("false"))
    {
      var val := Lookup(key);
      if val.None? {
        return None;
      }
      if val.value == "" {
        return Some(true);
      }
      if val.value == "1" || val.value == "yes" || val.value == "true" {
        return Some(true);
      }
      if val.value == "0" || val.value == "no" || val.value == "false" {
        return Some(false);
      }
      return None;
    }
  }

  /** Looking a key up in the map built from some pairs finds the first pair with that name. */
  lemma LookupInBuild(pairs: seq<(string, string)>, key: string)
    ensures var s := SortedBuild(pairs, Less(), "");
            && Sorted(s, Less())
            && SortedStep(s, Op.Find(key), Less(), "").1.value == FirstValue(pairs, key)
  {
    var s, m := SortedBuild(pairs, Less(), ""), MapBuild(pairs, Equiv(Less()));
    BuiltFromPairs(pairs, s, m);
    FindInSorted(s, m, key);
    FirstValueInMap(pairs, m, key);
  }

  lemma BuiltFromPairs(pairs: seq<(string, string)>, s: seq<(string, string)>, m: map<string, string>)
    requires s == SortedBuild(pairs, Less(), "") && m == MapBuild(pairs, Equiv(Less()))
    ensures Sorted(s, Less()) && Lists(s, m) && KeepsFirst(pairs, Equiv(Less()), m)
  {
    LessIsTotal();
    SortedBuildKeepsFirst(pairs, Less(), "");
  }

  lemma FindInSorted(s: seq<(string, string)>, m: map<string, string>, key: string)
    requires Sorted(s, Less()) && Lists(s, m)
    ensures SortedStep(s, Op.Find(key), Less(), "").1.value == if key in m then Some(m[key]) else None
  {
    LessIsTotal();
    TotalFind(s, m, Less(), key, "");
  }

  lemma FirstValueInMap(pairs: seq<(string, string)>, m: map<string, string>, key: string)
    requires KeepsFirst(pairs, Equiv(Less()), m)
    ensures FirstValue(pairs, key) == if key in m then Some(m[key]) else None
  {
    var r := FirstValue(pairs, key);
    if r.Some? {
      var i :| 0 <= i < |pairs| && pairs[i] == (key, r.value) && forall j :: 0 <= j < i ==> pairs[j].0 != key;
      EarlierDiffer(pairs, i);
    }
  }

  lemma EarlierDiffer(pairs: seq<(string, string)>, i: nat)
    requires i < |pairs| && forall j :: 0 <= j < i ==> pairs[j].0 != pairs[i].0
    ensures First(pairs, Equiv(Less()), i)
  {
    forall j | 0 <= j < i
      ensures !Equiv(Less())(pairs[j].0, pairs[i].0)
    {
      Trichotomy(pairs[j].0, pairs[i].0);
    }
  }
}
