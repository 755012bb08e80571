/** Printing a target and parsing it afresh. */
module TargetRoundTrip {
  import opened Options
  import opened Target

  /** Non-empty, and free of slashes, hashes, question marks and white space. */
  ghost predicate GoodPart(s: string) {
    s != "" && forall i :: 0 <= i < |s| ==> PathChar(s[i]) && s[i] != '/'
  }

  /** Free of the characters that structure a query. */
  ghost predicate GoodText(s: string) {
    forall i :: 0 <= i < |s| ==> PairChar(s[i]) && s[i] != '#'
  }

  ghost predicate GoodPair(p: (string, string)) {
    p.0 != "" && GoodText(p.0) && GoodText(p.1)
  }

  /** A name that is not empty, and a value, both free of separators and equals signs. */
  ghost predicate PairText(p: (string, string)) {
    p.0 != "" && All(p.0, PairChar) && All(p.1, PairChar)
  }

  ghost predicate GoodFragment(s: string) {
    s == "" || IsFragment(s)
  }

  function PrintPath(parts: seq<string>): string {
    if parts == [] then "" else "/" + parts[0] + PrintPath(parts[1..])
  }

  /** name=value, separated by ampersands or semicolons. */
  function PrintPairs(pairs: seq<(string, string)>, sep: char): string {
    if pairs == [] then ""
    else pairs[0].0 + ("=" + (pairs[0].1 + if |pairs| == 1 then "" else [sep] + PrintPairs(pairs[1..], sep)))
  }

  function PrintQuery(pairs: seq<(string, string)>, sep: char): string {
    if pairs == [] then "" else "?" + PrintPairs(pairs, sep)
  }

  function PrintTarget(parts: seq<string>, pairs: seq<(string, string)>, sep: char, fragment: string): string {
    PrintPath(parts) + PrintQuery(pairs, sep) + fragment
  }

  // ---------------------------------------------------------------- the path

  lemma {:induction false} PrintPathShape(parts: seq<string>)
    requires forall i :: 0 <= i < |parts| ==> GoodPart(parts[i])
    ensures var p := PrintPath(parts);
            && (forall i :: 0 <= i < |p| ==> PathChar(p[i]))
            && (parts != [] ==> |p| >= 2 && p[0] == '/')
  {
    if parts != [] {
      PrintPathShape(parts[1..]);
    }
  }

  lemma {:induction false} PathPartsOfPrinted(parts: seq<string>)
    requires forall i :: 0 <= i < |parts| ==> GoodPart(parts[i])
    ensures PathParts(PrintPath(parts)) == parts
  {
    if parts != [] {
      var p, rest := PrintPath(parts), PrintPath(parts[1..]);
      var n := |parts[0]|;
      assert p[1..] == parts[0] + rest;
      PrintPathShape(parts[1..]);
      RunLengthIs(p[1..], NotSlash, n);
      assert p[1..1 + n] == parts[0];
      assert p[1 + n..] == rest;
      PathPartsOfPrinted(parts[1..]);
    }
  }

  /** Text before the first slash is passed over. */
  lemma {:induction false} LeadingTextSkipped(text: string, rest: string)
    requires forall i :: 0 <= i < |text| ==> text[i] != '/'
    ensures PathParts(text + rest) == PathParts(rest)
  {
    if text == "" {
      assert text + rest == rest;
    } else {
      assert (text + rest)[1..] == text[1..] + rest;
      LeadingTextSkipped(text[1..], rest);
    }
  }

  /** Without its leading slash, a printed path loses its first part. */
  lemma FirstPartSkipped(first: string, parts: seq<string>)
    requires GoodPart(first) && forall i :: 0 <= i < |parts| ==> GoodPart(parts[i])
    ensures PrintPath([first] + parts) == "/" + (first + PrintPath(parts))
    ensures PathParts(first + PrintPath(parts)) == parts
  {
    assert ([first] + parts)[1..] == parts;
    LeadingTextSkipped(first, PrintPath(parts));
    PathPartsOfPrinted(parts);
  }

  /** A path reads the same without its leading slash exactly when nothing or a slash follows it. */
  lemma {:induction false} LeadingSlashIff(p: string)
    ensures PathParts(p) == PathParts("/" + p) <==> p == "" || p[0] == '/'
  {
    var n := RunLength(p, NotSlash);
    assert ("/" + p)[1..] == p;
    if n > 0 {
      assert ("/" + p)[1 + n..] == p[n..];
      assert p == p[..n] + p[n..];
      LeadingTextSkipped(p[..n], p[n..]);
    }
  }

  /** Segments with slashes between them. */
  function JoinSegments(segs: seq<string>): string
    requires segs != []
  {
    segs[0] + if |segs| == 1 then "" else "/" + JoinSegments(segs[1..])
  }

  function NonEmpty(segs: seq<string>): seq<string> {
    if segs == [] then [] else (if segs[0] == "" then [] else [segs[0]]) + NonEmpty(segs[1..])
  }

  ghost predicate SlashFree(segs: seq<string>) {
    forall i :: 0 <= i < |segs| ==> '/' !in segs[i]
  }

  /** Every text is made of segments, in one way or another. */
  lemma {:induction false} SegmentsOf(path: string) returns (segs: seq<string>)
    ensures segs != [] && SlashFree(segs) && JoinSegments(segs) == path
  {
    if path == "" {
      segs := [""];
    } else {
      var rest := SegmentsOf(path[1..]);
      assert path == [path[0]] + path[1..];
      if path[0] == '/' {
        segs := [""] + rest;
        assert segs[1..] == rest;
      } else {
        segs := [[path[0]] + rest[0]] + rest[1..];
        assert segs[1..] == rest[1..];
        JoinFirst([path[0]], rest);
      }
    }
  }

  lemma Assoc(a: string, b: string, c: string)
    ensures (a + b) + c == a + (b + c)
  {
  }

  lemma JoinFirst(text: string, segs: seq<string>)
    requires segs != []
    ensures JoinSegments([text + segs[0]] + segs[1..]) == text + JoinSegments(segs)
  {
    var more := [text + segs[0]] + segs[1..];
    assert more[1..] == segs[1..];
    var tail := if |segs| == 1 then "" else "/" + JoinSegments(segs[1..]);
    Assoc(text, segs[0], tail);
  }

  /** The parts of any path are its segments after the first slash, without the empty ones. */
  lemma PathPartsOfSegments(segs: seq<string>)
    requires segs != [] && SlashFree(segs)
    ensures PathParts(JoinSegments(segs)) == NonEmpty(segs[1..])
  {
    var rest := if |segs| == 1 then "" else "/" + JoinSegments(segs[1..]);
    LeadingTextSkipped(segs[0], rest);
    if |segs| > 1 {
      PathPartsAfterSlash(segs[1..]);
    }
  }

  lemma {:induction false} PathPartsAfterSlash(segs: seq<string>)
    requires segs != [] && SlashFree(segs)
    ensures PathParts("/" + JoinSegments(segs)) == NonEmpty(segs)
  {
    var rest := if |segs| == 1 then "" else "/" + JoinSegments(segs[1..]);
    if |segs| > 1 {
      PathPartsAfterSlash(segs[1..]);
    }
    FirstSegment(segs[0], rest);
  }

  lemma FirstSegment(seg: string, rest: string)
    requires '/' !in seg && (rest == "" || rest[0] == '/')
    ensures PathParts("/" + (seg + rest)) == (if seg == "" then [] else [seg]) + PathParts(rest)
  {
    var p, n := "/" + (seg + rest), |seg|;
    assert p[1..] == seg + rest;
    RunLengthIs(p[1..], NotSlash, n);
    EndOf(seg + rest, seg, rest);
    assert p[1..1 + n] == p[1..][..n] && p[1 + n..] == p[1..][n..];
    if n == 0 { assert p[1..] == rest; }
  }

  /** Whatever the path, its parts are non-empty and free of slashes. */
  lemma {:induction false} PathPartsAreParts(path: string)
    ensures forall i :: 0 <= i < |PathParts(path)| ==> PathParts(path)[i] != "" && All(PathParts(path)[i], NotSlash)
    decreases |path|
  {
    if path != "" {
      var n := if path[0] == '/' then RunLength(path[1..], NotSlash) else 0;
      if n > 0 {
        PathPartsAreParts(path[1 + n..]);
        assert forall i :: 0 <= i < n ==> path[1..1 + n][i] == path[1..][i];
      } else {
        PathPartsAreParts(path[1..]);
      }
    }
  }

  // ---------------------------------------------------------------- the query

  lemma {:induction false} PairsOfPrinted(pairs: seq<(string, string)>, sep: char)
    requires sep == '&' || sep == ';'
    requires forall i :: 0 <= i < |pairs| ==> PairText(pairs[i])
    ensures Pairs(PrintPairs(pairs, sep)) == pairs
  {
    if pairs != [] {
      var (name, value) := pairs[0];
      var more := PrintPairs(pairs[1..], sep);
      PairsOfPrinted(pairs[1..], sep);
      if |pairs| == 1 {
        PairsOfOneAndMore(name, value, "");
      } else {
        PairsOfOneAndMore(name, value, [sep] + more);
        PairsSkip([sep] + more);
        assert ([sep] + more)[1..] == more;
      }
      assert pairs == [pairs[0]] + pairs[1..];
    }
  }

  lemma PairsOfOneAndMore(name: string, value: string, rest: string)
    requires PairText((name, value)) && (rest == "" || !PairChar(rest[0]))
    ensures Pairs(name + ("=" + (value + rest))) == [(name, value)] + Pairs(rest)
  {
    var s := name + ("=" + (value + rest));
    StartsWithName(name, "=" + (value + rest));
    MatchPairOfPrinted(name, value, rest);
    EndOfMatch(name, value, rest);
    PairsAfterMatch(s, PairMatch(name, value, |name| + 1 + |value|), rest);
  }

  lemma PairsAfterMatch(s: string, m: PairMatch, rest: string)
    requires s != "" && PairChar(s[0]) && MatchPair(s) == m && s[m.end..] == rest
    ensures Pairs(s) == [(m.name, m.value)] + Pairs(rest)
  {
  }

  lemma StartsWithName(name: string, tail: string)
    requires name != "" && All(name, PairChar)
    ensures PairChar((name + tail)[0])
  {
    assert (name + tail)[0] == name[0];
  }

  lemma EndOfMatch(name: string, value: string, rest: string)
    ensures (name + ("=" + (value + rest)))[|name| + 1 + |value|..] == rest
  {
  }

  lemma PairsStep(s: string)
    requires s != "" && PairChar(s[0])
    ensures Pairs(s) == [(MatchPair(s).name, MatchPair(s).value)] + Pairs(s[MatchPair(s).end..])
  {
  }

  lemma PairsSkip(s: string)
    requires s != "" && !PairChar(s[0])
    ensures Pairs(s) == Pairs(s[1..])
  {
  }

  lemma MatchPairOfPrinted(name: string, value: string, rest: string)
    requires PairText((name, value)) && (rest == "" || !PairChar(rest[0]))
    ensures var s := name + ("=" + (value + rest));
            MatchPair(s) == PairMatch(name, value, |name| + 1 + |value|)
  {
    var tail := value + rest;
    var s := name + ("=" + tail);
    var n := |name|;
    assert s[..n] == name && s[n] == '=' && s[n + 1..] == tail;
    RunLengthIs(s, PairChar, n);
    assert tail[..|value|] == value;
    RunLengthIs(tail, PairChar, |value|);
    assert s[n + 1..n + 1 + |value|] == tail[..|value|];
  }

  // ---------------------------------------------------------------- any query

  /** The texts between the equals signs of one field. */
  ghost predicate Tokens(ts: seq<string>) {
    ts != [] && forall i :: 0 <= i < |ts| ==> '=' !in ts[i] && '&' !in ts[i] && ';' !in ts[i]
  }

  function FieldText(ts: seq<string>): string
    requires ts != []
  {
    ts[0] + if |ts| == 1 then "" else "=" + FieldText(ts[1..])
  }

  /** A name takes the text after its equals sign; without one it has the empty value. Names are not empty. */
  function FieldPairs(ts: seq<string>): seq<(string, string)> {
    if ts == [] then []
    else if ts[0] == "" then FieldPairs(ts[1..])
    else if |ts| == 1 then [(ts[0], "")]
    else [(ts[0], ts[1])] + FieldPairs(ts[2..])
  }

  lemma PairsOfBare(name: string, rest: string)
    requires name != "" && All(name, PairChar) && (rest == "" || rest[0] == '&' || rest[0] == ';')
    ensures Pairs(name + rest) == [(name, "")] + Pairs(rest)
  {
    var s, n := name + rest, |name|;
    StartsWithName(name, rest);
    assert s[..n] == name && s[n..] == rest;
    RunLengthIs(s, PairChar, n);
    PairsAfterMatch(s, PairMatch(name, "", n), rest);
  }

  lemma TokenIsText(t: string)
    requires '=' !in t && '&' !in t && ';' !in t
    ensures All(t, PairChar)
  {
  }

  /** The pairs of a field come first, then those of what follows its separator. */
  lemma {:induction false} PairsOfField(ts: seq<string>, rest: string)
    requires Tokens(ts) && (rest == "" || rest[0] == '&' || rest[0] == ';')
    ensures Pairs(FieldText(ts) + rest) == FieldPairs(ts) + Pairs(rest)
    decreases |ts|
  {
    if |ts| == 1 {
      assert ts == [ts[0]];
      PairsOfOneToken(ts[0], rest);
    } else if ts[0] == "" {
      PairsOfField(ts[1..], rest);
      PairsAfterEquals(ts, rest);
    } else if |ts| == 2 {
      assert ts == [ts[0], ts[1]];
      PairsOfTwoTokens(ts[0], ts[1], rest);
    } else {
      PairsOfField(ts[2..], rest);
      PairsOfMoreTokens(ts, rest);
    }
  }

  lemma PairsAfterEquals(ts: seq<string>, rest: string)
    requires |ts| > 1 && ts[0] == ""
    ensures Pairs(FieldText(ts) + rest) == Pairs(FieldText(ts[1..]) + rest)
    ensures FieldPairs(ts) == FieldPairs(ts[1..])
  {
    EqualsSkipped(FieldText(ts[1..]) + rest);
    assert FieldText(ts) == "=" + FieldText(ts[1..]);
    Assoc("=", FieldText(ts[1..]), rest);
  }

  lemma PairsOfOneToken(t: string, rest: string)
    requires Tokens([t]) && (rest == "" || rest[0] == '&' || rest[0] == ';')
    ensures Pairs(FieldText([t]) + rest) == FieldPairs([t]) + Pairs(rest)
  {
    assert [t][0] == t && [t][1..] == [] && FieldText([t]) == t;
    if t == "" {
      assert t + rest == rest;
    } else {
      TokenIsText(t);
      PairsOfBare(t, rest);
    }
  }

  lemma PairsOfTwoTokens(name: string, value: string, rest: string)
    requires name != "" && Tokens([name, value]) && (rest == "" || rest[0] == '&' || rest[0] == ';')
    ensures Pairs(FieldText([name, value]) + rest) == FieldPairs([name, value]) + Pairs(rest)
  {
    assert [name, value][0] == name && [name, value][1] == value;
    TokenIsText(name);
    TokenIsText(value);
    TwoTokens(name, value);
    PairsOfOneAndMore(name, value, rest);
    Assoc(name, "=" + value, rest);
    Assoc("=", value, rest);
  }

  lemma TwoTokens(name: string, value: string)
    requires name != ""
    ensures FieldText([name, value]) == name + ("=" + value) && FieldPairs([name, value]) == [(name, value)]
  {
    var ts := [name, value];
    assert ts[1..] == [value] && ts[2..] == [];
    assert FieldText([value]) == value;
  }

  lemma PairsOfMoreTokens(ts: seq<string>, rest: string)
    requires |ts| > 2 && ts[0] != "" && Tokens(ts)
    requires Pairs(FieldText(ts[2..]) + rest) == FieldPairs(ts[2..]) + Pairs(rest)
    ensures Pairs(FieldText(ts) + rest) == FieldPairs(ts) + Pairs(rest)
  {
    var more := FieldText(ts[2..]);
    TokenIsText(ts[0]);
    TokenIsText(ts[1]);
    EqualsSkipped(more + rest);
    PairsOfOneAndMore(ts[0], ts[1], "=" + (more + rest));
    FieldTextOfMore(ts, rest);
  }

  lemma FieldTextOfMore(ts: seq<string>, rest: string)
    requires |ts| > 2
    ensures FieldText(ts) + rest == ts[0] + ("=" + (ts[1] + ("=" + (FieldText(ts[2..]) + rest))))
  {
    assert ts[1..][1..] == ts[2..];
    Regrouped(ts[0], ts[1], FieldText(ts[2..]), rest);
  }

  lemma Regrouped(a: string, b: string, c: string, rest: string)
    ensures (a + ("=" + (b + ("=" + c)))) + rest == a + ("=" + (b + ("=" + (c + rest))))
  {
  }

  lemma EqualsSkipped(rest: string)
    ensures Pairs("=" + rest) == Pairs(rest)
  {
    assert ("=" + rest)[1..] == rest;
  }

  // A query without its question mark: fields, and the separators between them.
  datatype QueryText = QueryText(fields: seq<seq<string>>, seps: seq<char>)

  ghost predicate GoodQuery(q: QueryText) {
    && |q.fields| == |q.seps| + 1
    && (forall i :: 0 <= i < |q.fields| ==> Tokens(q.fields[i]))
    && forall i :: 0 <= i < |q.seps| ==> q.seps[i] == '&' || q.seps[i] == ';'
  }

  ghost function PrintFields(q: QueryText): string
    requires GoodQuery(q)
    decreases |q.fields|
  {
    FieldText(q.fields[0]) +
    if q.seps == [] then "" else [q.seps[0]] + PrintFields(QueryText(q.fields[1..], q.seps[1..]))
  }

  function AllPairs(fields: seq<seq<string>>): seq<(string, string)> {
    if fields == [] then [] else FieldPairs(fields[0]) + AllPairs(fields[1..])
  }

  /** The pairs of any query are those of its fields, in order, whatever the separators. */
  lemma {:induction false} PairsOfQuery(q: QueryText)
    requires GoodQuery(q)
    ensures Pairs(PrintFields(q)) == AllPairs(q.fields)
    decreases |q.fields|
  {
    if q.seps == [] {
      PairsOfField(q.fields[0], "");
      assert FieldText(q.fields[0]) + "" == FieldText(q.fields[0]);
      assert AllPairs(q.fields[1..]) == [];
    } else {
      var more := QueryText(q.fields[1..], q.seps[1..]);
      PairsOfQuery(more);
      var rest := [q.seps[0]] + PrintFields(more);
      PairsOfField(q.fields[0], rest);
      assert rest[1..] == PrintFields(more);
      PairsSkip(rest);
    }
  }

  /** Every text is a query of that form. */
  lemma {:induction false} FieldsOf(s: string) returns (q: QueryText)
    ensures GoodQuery(q) && PrintFields(q) == s
  {
    if s == "" {
      q := QueryText([[""]], []);
    } else {
      var rest := FieldsOf(s[1..]);
      assert s == [s[0]] + s[1..];
      if s[0] == '&' || s[0] == ';' {
        q := QueryText([[""]] + rest.fields, [s[0]] + rest.seps);
        assert QueryText(q.fields[1..], q.seps[1..]) == rest;
        assert FieldText([""]) == "";
      } else if s[0] == '=' {
        FieldOnFront([""] + rest.fields[0], rest, "=");
        assert ([""] + rest.fields[0])[1..] == rest.fields[0];
        q := QueryText([[""] + rest.fields[0]] + rest.fields[1..], rest.seps);
      } else {
        var ts := rest.fields[0];
        var ts' := [[s[0]] + ts[0]] + ts[1..];
        assert ts'[1..] == ts[1..];
        CharOnFront(s[0], ts);
        FieldOnFront(ts', rest, [s[0]]);
        q := QueryText([ts'] + rest.fields[1..], rest.seps);
      }
    }
  }

  lemma CharOnFront(c: char, ts: seq<string>)
    requires ts != []
    ensures FieldText([[c] + ts[0]] + ts[1..]) == [c] + FieldText(ts)
  {
    var more := [[c] + ts[0]] + ts[1..];
    assert more[1..] == ts[1..];
    var tail := if |ts| == 1 then "" else "=" + FieldText(ts[1..]);
    Assoc([c], ts[0], tail);
  }

  lemma FieldOnFront(ts: seq<string>, q: QueryText, text: string)
    requires GoodQuery(q) && Tokens(ts) && FieldText(ts) == text + FieldText(q.fields[0])
    ensures GoodQuery(QueryText([ts] + q.fields[1..], q.seps))
    ensures PrintFields(QueryText([ts] + q.fields[1..], q.seps)) == text + PrintFields(q)
  {
    var more := QueryText([ts] + q.fields[1..], q.seps);
    assert more.fields[1..] == q.fields[1..];
    var tail := if q.seps == [] then "" else [q.seps[0]] + PrintFields(QueryText(q.fields[1..], q.seps[1..]));
    Assoc(text, FieldText(q.fields[0]), tail);
  }

  /** The first character of a query is dropped, whatever it is. */
  lemma FirstCharDropped(c: char, text: string)
    ensures QueryPairs([c] + text) == Pairs(text)
  {
    assert ([c] + text)[1..] == text;
  }

  /** Whatever the text, its pairs have names, and neither names nor values hold separators. */
  lemma {:induction false} PairsAreText(s: string)
    ensures forall i :: 0 <= i < |Pairs(s)| ==> PairText(Pairs(s)[i])
    decreases |s|
  {
    if s == "" {
    } else if !PairChar(s[0]) {
      PairsAreText(s[1..]);
    } else {
      var m := MatchPair(s);
      MatchedPairIsText(s);
      PairsAreText(s[m.end..]);
      PairsStep(s);
    }
  }

  lemma MatchedPairIsText(s: string)
    requires s != "" && PairChar(s[0])
    ensures PairText((MatchPair(s).name, MatchPair(s).value))
  {
    var n := RunLength(s, PairChar);
    assert forall i :: 0 <= i < n ==> s[..n][i] == s[i];
    if n < |s| && s[n] == '=' {
      var rest := s[n + 1..];
      var k := RunLength(rest, PairChar);
      assert s[n + 1..n + 1 + k] == rest[..k];
    }
  }

  /** Reading is idempotent: any text's pairs, printed in normal form, read back as themselves. */
  lemma PairsNormalise(s: string, sep: char)
    requires sep == '&' || sep == ';'
    ensures Pairs(PrintPairs(Pairs(s), sep)) == Pairs(s)
  {
    PairsAreText(s);
    PairsOfPrinted(Pairs(s), sep);
  }

  lemma {:induction false} PrintPairsHasNoHash(pairs: seq<(string, string)>, sep: char)
    requires sep != '#' && forall i :: 0 <= i < |pairs| ==> GoodPair(pairs[i])
    ensures '#' !in PrintPairs(pairs, sep)
  {
    if pairs != [] {
      PrintPairsHasNoHash(pairs[1..], sep);
    }
  }

  /** A lazy repetition runs over text without hashes up to the fragment. */
  lemma {:induction false} LazyQueryOf(text: string, fragment: string)
    requires '#' !in text && GoodFragment(fragment)
    ensures LazyQuery(text + fragment) == |text|
  {
    if text == "" {
      assert text + fragment == fragment;
    } else {
      assert (text + fragment)[0] == text[0];
      assert (text + fragment)[1..] == text[1..] + fragment;
      LazyQueryOf(text[1..], fragment);
    }
  }

  // ---------------------------------------------------------------- the whole target

  lemma SplitOfPrinted(path: string, query: string, fragment: string)
    requires path == "" || (|path| >= 2 && path[0] == '/')
    requires forall i :: 0 <= i < |path| ==> PathChar(path[i])
    requires query == "" || query[0] == '?'
    requires '#' !in query && GoodFragment(fragment)
    ensures SplitTarget(path + query + fragment) == Pieces(path, query, fragment)
  {
    Assoc(path, query, fragment);
    PathLengthOf(path, query + fragment);
    EndOf(path + (query + fragment), path, query + fragment);
    LazyQueryOf(query, fragment);
    EndOf(query + fragment, query, fragment);
  }

  lemma PathLengthOf(path: string, tail: string)
    requires path == "" || (|path| >= 2 && path[0] == '/')
    requires forall i :: 0 <= i < |path| ==> PathChar(path[i])
    requires tail == "" || tail[0] == '?' || tail[0] == '#'
    ensures PathLength(path + tail) == |path|
  {
    var sv := path + tail;
    if path == "" {
      assert sv == tail;
    } else {
      assert sv[1..] == path[1..] + tail;
      RunLengthIs(sv[1..], PathChar, |path| - 1);
    }
  }

  /**
    Parsing a printed target gives back its parts, its pairs and its fragment, and looking a name
    up gives the value of its first occurrence.
  */
  lemma TargetRoundTrips(parts: seq<string>, pairs: seq<(string, string)>, sep: char, fragment: string)
    requires forall i :: 0 <= i < |parts| ==> GoodPart(parts[i])
    requires forall i :: 0 <= i < |pairs| ==> GoodPair(pairs[i])
    requires (sep == '&' || sep == ';') && GoodFragment(fragment)
    ensures var pieces := SplitTarget(PrintTarget(parts, pairs, sep, fragment));
            && PathParts(pieces.path) == parts
            && QueryPairs(pieces.query) == pairs
            && pieces.fragment == fragment
  {
    PrintPathShape(parts);
    QueryOfPrinted(pairs, sep);
    SplitOfPrinted(PrintPath(parts), PrintQuery(pairs, sep), fragment);
    PathPartsOfPrinted(parts);
  }

  lemma QueryOfPrinted(pairs: seq<(string, string)>, sep: char)
    requires forall i :: 0 <= i < |pairs| ==> GoodPair(pairs[i])
    requires sep == '&' || sep == ';'
    ensures var q := PrintQuery(pairs, sep);
            QueryPairs(q) == pairs && '#' !in q && (q == "" || q[0] == '?')
  {
    PrintPairsHasNoHash(pairs, sep);
    PairsOfPrinted(pairs, sep);
    if pairs != [] { FirstCharDropped('?', PrintPairs(pairs, sep)); }
  }

  ghost predicate HashFree(q: QueryText) {
    forall i, j :: 0 <= i < |q.fields| && 0 <= j < |q.fields[i]| ==> '#' !in q.fields[i][j]
  }

  lemma {:induction false} FieldTextHasNoHash(ts: seq<string>)
    requires ts != [] && forall j :: 0 <= j < |ts| ==> '#' !in ts[j]
    ensures '#' !in FieldText(ts)
  {
    if |ts| > 1 { FieldTextHasNoHash(ts[1..]); }
  }

  lemma {:induction false} PrintFieldsHasNoHash(q: QueryText)
    requires GoodQuery(q) && HashFree(q)
    ensures '#' !in PrintFields(q)
    decreases |q.fields|
  {
    FieldTextHasNoHash(q.fields[0]);
    if q.seps != [] {
      PrintFieldsHasNoHash(QueryText(q.fields[1..], q.seps[1..]));
    }
  }

  ghost function PrintAnyTarget(parts: seq<string>, q: QueryText, fragment: string): string
    requires GoodQuery(q)
  {
    PrintPath(parts) + ("?" + PrintFields(q)) + fragment
  }

  /** A target with any query at all, bare names and empty fields included. */
  lemma AnyQueryRoundTrips(parts: seq<string>, q: QueryText, fragment: string)
    requires forall i :: 0 <= i < |parts| ==> GoodPart(parts[i])
    requires GoodQuery(q) && HashFree(q) && GoodFragment(fragment)
    ensures var pieces := SplitTarget(PrintAnyTarget(parts, q, fragment));
            && PathParts(pieces.path) == parts
            && QueryPairs(pieces.query) == AllPairs(q.fields)
            && pieces.fragment == fragment
  {
    PrintPathShape(parts);
    PrintFieldsHasNoHash(q);
    SplitOfPrinted(PrintPath(parts), "?" + PrintFields(q), fragment);
    PathPartsOfPrinted(parts);
    PairsOfQuery(q);
    FirstCharDropped('?', PrintFields(q));
  }

  ghost predicate NotNamed(pairs: seq<(string, string)>, key: string) {
    forall i :: 0 <= i < |pairs| ==> pairs[i].0 != key
  }

  lemma {:induction false} FirstValueAfter(a: seq<(string, string)>, b: seq<(string, string)>, key: string)
    requires NotNamed(a, key)
    ensures FirstValue(a + b, key) == FirstValue(b, key)
  {
    if a == [] {
      assert a + b == b;
    } else {
      assert (a + b)[1..] == a[1..] + b;
      FirstValueAfter(a[1..], b, key);
    }
  }

  /** A bare name that no field before it has has the empty value. */
  lemma {:induction false} FirstValueOfBare(fields: seq<seq<string>>, i: nat, key: string)
    requires i < |fields| && fields[i] == [key] && key != ""
    requires forall j :: 0 <= j < i ==> NotNamed(FieldPairs(fields[j]), key)
    ensures FirstValue(AllPairs(fields), key) == Some("")
  {
    if i == 0 {
      assert FieldPairs([key]) == [(key, "")];
      assert (FieldPairs(fields[0]) + AllPairs(fields[1..]))[0] == (key, "");
    } else {
      FirstValueOfBare(fields[1..], i - 1, key);
      FirstValueAfter(FieldPairs(fields[0]), AllPairs(fields[1..]), key);
    }
  }

  /** The round trip through the parser object. */
  method ParsePrinted(parts: seq<string>, pairs: seq<(string, string)>, sep: char, fragment: string, key: string)
    returns (parser: TargetParser, val: Option<string>)
    requires forall i :: 0 <= i < |parts| ==> GoodPart(parts[i])
    requires forall i :: 0 <= i < |pairs| ==> GoodPair(pairs[i])
    requires (sep == '&' || sep == ';') && GoodFragment(fragment)
    ensures fresh(parser) && parser.Parsed() && parser.pathParts == parts
    ensures val == FirstValue(pairs, key)
  {
    TargetRoundTrips(parts, pairs, sep, fragment);
    parser := new TargetParser.FromUrl(PrintTarget(parts, pairs, sep, fragment));
    val := parser.Lookup(key);
  }

  /** Any query through the parser object; a name that first occurs bare is a switch that is on. */
  method ParseAnyQuery(url: string, ghost parts: seq<string>, ghost q: QueryText, ghost fragment: string, key: string)
    returns (parser: TargetParser, val: Option<string>, on: Option<bool>)
    requires forall i :: 0 <= i < |parts| ==> GoodPart(parts[i])
    requires GoodQuery(q) && HashFree(q) && GoodFragment(fragment)
    requires url == PrintAnyTarget(parts, q, fragment) && key != ""
    ensures fresh(parser) && parser.Parsed() && parser.pathParts == parts
    ensures val == FirstValue(AllPairs(q.fields), key)
    ensures (exists i: nat :: i < |q.fields| && q.fields[i] == [key] && forall j :: 0 <= j < i ==> NotNamed(FieldPairs(q.fields[j]), key))
            ==> on == Some(true)
  {
    AnyQueryRoundTrips(parts, q, fragment);
    parser := new TargetParser.FromUrl(url);
    val := parser.Lookup(key);
    on := parser.GetBool(key);
    if i: nat :| i < |q.fields| && q.fields[i] == [key] && forall j :: 0 <= j < i ==> NotNamed(FieldPairs(q.fields[j]), key) {
      FirstValueOfBare(q.fields, i, key);
    }
  }
}
