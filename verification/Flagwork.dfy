/** Comma-separated flag values, and the trip from a flag set through a target and back. */
module Flagwork {
  import opened Options
  import opened Bits
  import opened EnumSets
  import opened Target
  import opened TargetRoundTrip

  // ---------------------------------------------------------------- the iterator

  function FindComma(s: string): (n: nat)
    ensures n <= |s| && (n < |s| ==> s[n] == ',') && forall i :: 0 <= i < n ==> s[i] != ','
  {
    if s == "" || s[0] == ',' then 0
    else
      var n := FindComma(s[1..]);
      assert forall i :: 0 < i < |s| ==> s[i] == s[1..][i - 1];
      1 + n
  }

  function LeadingCommas(s: string): (n: nat)
    ensures n <= |s| && (forall i :: 0 <= i < n ==> s[i] == ',') && (n < |s| ==> s[n] != ',')
  {
    if s == "" || s[0] != ',' then 0
    else
      var n := LeadingCommas(s[1..]);
      assert forall i :: 0 < i < |s| ==> s[i] == s[1..][i - 1];
      1 + n
  }

  /** What remains after the first comma. */
  function Rest(sv: string): (r: string)
    ensures sv != "" ==> |r| < |sv|
  {
    var n := FindComma(sv);
    if n < |sv| then sv[n + 1..] else ""
  }

  /** The end of the token is looked for after the leading commas, but the token keeps them. */
  function Token(sv: string): string {
    var k := LeadingCommas(sv);
    sv[..k + FindComma(sv[k..])]
  }

  class CSVIterator {
    var sv: string

    constructor (sv: string)
      ensures this.sv == sv
    {
      this.sv := sv;
    }

    method Advance()
      modifies this
      ensures sv == Rest(old(sv)) && (old(sv) != "" ==> |sv| < |old(sv)|)
    {
      var it := FindComma(sv);
      sv := sv[if it != |sv| then it + 1 else |sv|..];
    }

    method Deref() returns (token: string)
      ensures token == Token(sv)
    {
      var csv := sv;
      var skipped := 0;
      while csv != "" && csv[0] == ','
        invariant skipped <= |sv| && csv == sv[skipped..]
        invariant forall i :: 0 <= i < skipped ==> sv[i] == ','
        decreases |csv|
      {
        csv := csv[1..];
        skipped := skipped + 1;
      }
      LeadingCommasIs(sv, skipped);
      token := sv[..skipped + FindComma(csv)];
    }
  }

  lemma {:induction false} LeadingCommasIs(s: string, n: nat)
    requires n <= |s| && (forall i :: 0 <= i < n ==> s[i] == ',') && (n < |s| ==> s[n] != ',')
    ensures LeadingCommas(s) == n
  {
    if n > 0 {
      assert forall i :: 0 <= i < |s| - 1 ==> s[1..][i] == s[i + 1];
      LeadingCommasIs(s[1..], n - 1);
    }
  }

  // ---------------------------------------------------------------- reading flags

  /** Reads the tokens one after the other into `flags`. */
  function FlagsFrom(names: seq<string>, sv: string, flags: nat): Option<nat>
    decreases |sv|
  {
    if sv == "" then Some(flags)
    else
      match FromString(names, Token(sv))
      case None => None
      case Some(v) => FlagsFrom(names, Rest(sv), BitOr(flags, v))
  }

  /** A set of flags is read from the whole list; a flag that cannot be combined, from its head. */
  function FlagsOf(names: seq<string>, composable: bool, csv: Option<string>): Option<nat> {
    if csv.None? || csv.value == "" then Some(0)
    else if composable then FlagsFrom(names, csv.value, 0)
    else FromString(names, Token(csv.value))
  }

  method TargetGetComposableFlag(names: seq<string>, composable: bool, target: TargetParser, tag: string) returns (r: Option<nat>)
    requires target.Parsed()
    ensures r == FlagsOf(names, composable, FirstValue(QueryPairs(SplitTarget(target.url).query), tag))
  {
    var flags := 0;
    var csv := target.Lookup(tag);
    if csv.Some? && csv.value != "" {
      var it := new CSVIterator(csv.value);
      while it.sv != ""
        invariant fresh(it)
        invariant composable || it.sv == csv.value
        invariant composable ==> FlagsFrom(names, it.sv, flags) == FlagsFrom(names, csv.value, 0)
        decreases |it.sv|
      {
        var token := it.Deref();
        var v := FromString(names, token);
        if v.None? {
          return None;
        }
        if composable {
          flags := BitOr(flags, v.value);
        } else {
          return v;
        }
        it.Advance();
      }
    }
    return Some(flags);
  }

  // ---------------------------------------------------------------- the grammar of flag lists

  predicate CommaFree(s: string) {
    forall i :: 0 <= i < |s| ==> s[i] != ','
  }

  /** The fields between commas; a comma at the very end opens no further field. */
  function Fields(csv: string): seq<string>
    decreases |csv|
  {
    if csv == "" then [] else [csv[..FindComma(csv)]] + Fields(Rest(csv))
  }

  function Join(ns: seq<string>): string {
    if ns == [] then "" else if |ns| == 1 then ns[0] else ns[0] + "," + Join(ns[1..])
  }

  /** Every field is a non-empty known name. */
  ghost predicate AllKnown(names: seq<string>, ns: seq<string>) {
    forall i :: 0 <= i < |ns| ==> ns[i] != "" && ns[i] in names
  }

  function FlagsOfNames(names: seq<string>, ns: seq<string>): (fs: seq<nat>)
    requires forall i :: 0 <= i < |ns| ==> ns[i] in names
    ensures |fs| == |ns| && forall i :: 0 <= i < |ns| ==> Some(fs[i]) == FromString(names, ns[i])
  {
    seq(|ns|, i requires 0 <= i < |ns| => FromString(names, ns[i]).value)
  }

  ghost predicate AllCommaFree(names: seq<string>) {
    forall i :: 0 <= i < |names| ==> CommaFree(names[i])
  }

  /** A token is a known name exactly when the first field is not empty and is that name. */
  lemma TokenIsField(names: seq<string>, sv: string)
    requires sv != "" && AllCommaFree(names)
    ensures sv[0] != ',' ==> Token(sv) == sv[..FindComma(sv)] != ""
    ensures sv[0] == ',' ==> FromString(names, Token(sv)).None? && sv[..FindComma(sv)] == ""
  {
    if sv[0] == ',' {
      CommaTokenUnknown(names, Token(sv));
    } else {
      assert LeadingCommas(sv) == 0 && sv[0..] == sv;
    }
  }

  lemma CommaTokenUnknown(names: seq<string>, t: string)
    requires AllCommaFree(names) && t != "" && t[0] == ','
    ensures FromString(names, t).None?
  {
    assert !CommaFree(t);
  }

  lemma BitOrZero(a: nat)
    ensures BitOr(0, a) == a && BitOr(a, 0) == a
  {
    forall i: nat
      ensures Bit(BitOr(0, a), i) <==> Bit(a, i)
      ensures Bit(BitOr(a, 0), i) <==> Bit(a, i)
    {
      OrBits(0, a, i);
      OrBits(a, 0, i);
      ZeroHasNoBits(i);
    }
    SameBitsEqual(BitOr(0, a), a);
    SameBitsEqual(BitOr(a, 0), a);
  }

  lemma BitOrAssoc(a: nat, b: nat, c: nat)
    ensures BitOr(BitOr(a, b), c) == BitOr(a, BitOr(b, c))
  {
    forall i: nat
      ensures Bit(BitOr(BitOr(a, b), c), i) <==> Bit(BitOr(a, BitOr(b, c)), i)
    {
      OrBits(BitOr(a, b), c, i);
      OrBits(a, b, i);
      OrBits(a, BitOr(b, c), i);
      OrBits(b, c, i);
    }
    SameBitsEqual(BitOr(BitOr(a, b), c), BitOr(a, BitOr(b, c)));
  }

  /** Reading succeeds exactly when all fields are known, and then adds the union of their flags. */
  lemma {:induction false} FlagsFromFields(names: seq<string>, sv: string, flags: nat)
    requires AllCommaFree(names)
    ensures FlagsFrom(names, sv, flags).Some? <==> AllKnown(names, Fields(sv))
    ensures AllKnown(names, Fields(sv)) ==>
              FlagsFrom(names, sv, flags) == Some(BitOr(flags, OrAll(FlagsOfNames(names, Fields(sv)))))
    decreases |sv|
  {
    if sv == "" {
      BitOrZero(flags);
    } else {
      var field, rest := sv[..FindComma(sv)], Rest(sv);
      var v := FromString(names, Token(sv));
      TokenIsField(names, sv);
      AllKnownCons(names, field, Fields(rest));
      if v.Some? {
        FlagsFromFields(names, rest, BitOr(flags, v.value));
        if AllKnown(names, Fields(rest)) {
          FlagsOfCons(names, field, Fields(rest), flags);
        }
      }
    }
  }

  lemma FlagsOfCons(names: seq<string>, n: string, ns: seq<string>, flags: nat)
    requires n in names && forall i :: 0 <= i < |ns| ==> ns[i] in names
    ensures FromString(names, n).Some?
    ensures forall i :: 0 <= i < |[n] + ns| ==> ([n] + ns)[i] in names
    ensures BitOr(BitOr(flags, FromString(names, n).value), OrAll(FlagsOfNames(names, ns)))
            == BitOr(flags, OrAll(FlagsOfNames(names, [n] + ns)))
  {
    var v, fs := FromString(names, n).value, FlagsOfNames(names, ns);
    assert FlagsOfNames(names, [n] + ns) == [v] + fs;
    OrOfCons(v, fs);
    BitOrAssoc(flags, v, OrAll(fs));
  }

  lemma AllKnownCons(names: seq<string>, n: string, ns: seq<string>)
    ensures AllKnown(names, [n] + ns) <==> n != "" && n in names && AllKnown(names, ns)
  {
    var all := [n] + ns;
    assert all[0] == n;
    assert forall i :: 0 <= i < |ns| ==> all[i + 1] == ns[i];
    assert forall i :: 0 < i < |all| ==> all[i] == ns[i - 1];
  }

  /** The fields of a text are some non-empty names iff it is those names joined, give or take one final comma. */
  lemma {:induction false} FieldsIffJoined(csv: string, ns: seq<string>)
    requires forall i :: 0 <= i < |ns| ==> ns[i] != "" && CommaFree(ns[i])
    ensures Fields(csv) == ns <==> csv == Join(ns) || (ns != [] && csv == Join(ns) + ",")
    decreases |csv|
  {
    if ns != [] && csv != "" {
      var n := FindComma(csv);
      FieldsIffJoined(Rest(csv), ns[1..]);
      FirstFieldOfJoined(csv, ns);
      assert Fields(csv) == [csv[..n]] + Fields(Rest(csv));
      assert ns == [ns[0]] + ns[1..];
      assert Fields(csv) == ns ==> Fields(csv)[1..] == ns[1..];
    } else if ns != [] {
      assert Join(ns) != "";
    }
  }

  ghost predicate Joined(csv: string, ns: seq<string>) {
    csv == Join(ns) || (ns != [] && csv == Join(ns) + ",")
  }

  /** Peeling the first name off a joined text. */
  lemma FirstFieldOfJoined(csv: string, ns: seq<string>)
    requires csv != "" && ns != [] && forall i :: 0 <= i < |ns| ==> ns[i] != "" && CommaFree(ns[i])
    ensures Joined(csv, ns) <==> csv[..FindComma(csv)] == ns[0] && Joined(Rest(csv), ns[1..])
  {
    if csv == Join(ns) {
      assert csv == Join(ns) + "";
      PeelJoined(ns, "");
    } else if csv == Join(ns) + "," {
      PeelJoined(ns, ",");
    } else if csv[..FindComma(csv)] == ns[0] && Joined(Rest(csv), ns[1..]) {
      RebuildJoined(csv, ns);
    }
  }

  lemma JoinNonEmpty(ns: seq<string>)
    requires ns != [] && ns[0] != ""
    ensures Join(ns) != ""
  {
  }

  lemma Regroup(a: string, b: string, c: string)
    ensures (a + "," + b) + c == a + "," + (b + c)
  {
  }

  lemma RebuildText(csv: string)
    ensures var n := FindComma(csv);
            csv == if n < |csv| then csv[..n] + "," + Rest(csv) else csv[..n]
  {
    var n := FindComma(csv);
    if n < |csv| {
      SplitAround(csv, n);
      assert [csv[n]] == ",";
    } else {
      assert csv[..n] == csv;
    }
  }

  lemma SplitAround(s: string, n: nat)
    requires n < |s|
    ensures s == s[..n] + [s[n]] + s[n + 1..]
  {
    assert s[..n + 1] == s[..n] + [s[n]];
    assert s == s[..n + 1] + s[n + 1..];
  }

  lemma RebuildJoined(csv: string, ns: seq<string>)
    requires csv != "" && ns != [] && forall i :: 0 <= i < |ns| ==> ns[i] != ""
    requires csv[..FindComma(csv)] == ns[0] && Joined(Rest(csv), ns[1..])
    ensures Joined(csv, ns)
  {
    var n := FindComma(csv);
    if |ns| > 1 { JoinNonEmpty(ns[1..]); }
    RebuildText(csv);
    if n < |csv| && |ns| > 1 {
      Regroup(ns[0], Join(ns[1..]), ",");
    }
  }

  lemma PeelJoined(ns: seq<string>, e: string)
    requires ns != [] && (e == "" || e == ",") && forall i :: 0 <= i < |ns| ==> ns[i] != "" && CommaFree(ns[i])
    ensures var csv := Join(ns) + e;
            csv[..FindComma(csv)] == ns[0] && Joined(Rest(csv), ns[1..])
  {
    if |ns| > 1 {
      Regroup(ns[0], Join(ns[1..]), e);
      PeelField(ns[0], Join(ns[1..]) + e);
      assert e == "" ==> Join(ns[1..]) + e == Join(ns[1..]);
    } else {
      PeelLast(ns[0], e);
      assert Join(ns) == ns[0] && ns[1..] == [];
    }
  }

  lemma PeelLast(x: string, e: string)
    requires CommaFree(x) && (e == "" || e == ",")
    ensures (x + e)[..FindComma(x + e)] == x && Rest(x + e) == ""
  {
    FindCommaIs(x + e, |x|);
  }

  lemma PeelField(x: string, rest: string)
    requires CommaFree(x)
    ensures FindComma(x + "," + rest) == |x| && (x + "," + rest)[..|x|] == x && Rest(x + "," + rest) == rest
  {
    FindCommaIs(x + "," + rest, |x|);
  }

  lemma {:induction false} FindCommaIs(s: string, n: nat)
    requires n <= |s| && (forall i :: 0 <= i < n ==> s[i] != ',') && (n < |s| ==> s[n] == ',')
    ensures FindComma(s) == n
  {
    if n > 0 {
      assert forall i :: 0 <= i < |s| - 1 ==> s[1..][i] == s[i + 1];
      FindCommaIs(s[1..], n - 1);
    }
  }

  /**
    What is accepted, and with what result: the empty value, or known names joined by single commas
    with at most one comma after the last; the result is the union of their flags.
  */
  lemma AcceptedFlagLists(names: seq<string>, csv: string, ns: seq<string>)
    requires AllCommaFree(names) && AllKnown(names, ns) && Joined(csv, ns)
    ensures FlagsOf(names, true, Some(csv)) == Some(OrAll(FlagsOfNames(names, ns)))
  {
    KnownAreCommaFree(names, ns);
    FieldsIffJoined(csv, ns);
    FlagsFromFields(names, csv, 0);
    BitOrZero(OrAll(FlagsOfNames(names, ns)));
  }

  lemma OnlyAcceptedFlagLists(names: seq<string>, csv: string)
    requires AllCommaFree(names) && FlagsOf(names, true, Some(csv)).Some?
    ensures exists ns :: AllKnown(names, ns) && Joined(csv, ns)
  {
    var ns := Fields(csv);
    FlagsFromFields(names, csv, 0);
    KnownAreCommaFree(names, ns);
    FieldsIffJoined(csv, ns);
  }

  lemma KnownAreCommaFree(names: seq<string>, ns: seq<string>)
    requires AllCommaFree(names) && AllKnown(names, ns)
    ensures forall i :: 0 <= i < |ns| ==> ns[i] != "" && CommaFree(ns[i])
  {
  }

  /** No value, or an empty one, is no flag; neither is an error. */
  lemma NoFlagsGiven(names: seq<string>, composable: bool)
    ensures FlagsOf(names, composable, None) == Some(0)
    ensures FlagsOf(names, composable, Some("")) == Some(0)
  {
  }

  /** Of flags that do not combine, the name before the first comma decides, and what follows does not matter. */
  lemma FirstNameDecides(names: seq<string>, name: string, rest: string)
    requires AllCommaFree(names) && CommaFree(name) && name + rest != "" && (rest == "" || rest[0] == ',')
    ensures FlagsOf(names, false, Some(name + rest)) == if name == "" then None else FromString(names, name)
  {
    var csv := name + rest;
    TokenIsField(names, csv);
    if name == "" {
      assert csv == rest;
    } else {
      assert csv[0] == name[0];
      FindCommaIs(csv, |name|);
      assert csv[..|name|] == name;
    }
  }

  /** Order and repetition of the names make no difference. */
  lemma OrderAndRepetitionIrrelevant(names: seq<string>, csv: string, csv': string, ns: seq<string>, ns': seq<string>)
    requires AllCommaFree(names) && AllKnown(names, ns) && Joined(csv, ns) && AllKnown(names, ns') && Joined(csv', ns')
    requires forall n :: n in ns <==> n in ns'
    ensures FlagsOf(names, true, Some(csv)) == FlagsOf(names, true, Some(csv'))
  {
    AcceptedFlagLists(names, csv, ns);
    AcceptedFlagLists(names, csv', ns');
    var fs, fs' := FlagsOfNames(names, ns), FlagsOfNames(names, ns');
    forall f
      ensures f in fs <==> f in fs'
    {
      if f in fs {
        var i :| 0 <= i < |fs| && fs[i] == f;
        assert ns[i] in ns';
        var j :| 0 <= j < |ns'| && ns'[j] == ns[i];
        assert fs'[j] == f;
      }
      if f in fs' {
        var i :| 0 <= i < |fs'| && fs'[i] == f;
        assert ns'[i] in ns;
        var j :| 0 <= j < |ns| && ns[j] == ns'[i];
        assert fs[j] == f;
      }
    }
    OrAllOfSameFlags(fs, fs');
  }

  // ---------------------------------------------------------------- the whole trip

  /** A table of at most 32 distinct, non-empty names without structuring characters. */
  ghost predicate GoodNames(names: seq<string>) {
    && |names| <= 32 && Distinct(names)
    && forall i :: 0 <= i < |names| ==> names[i] != "" && CommaFree(names[i]) && GoodText(names[i])
  }

  ghost predicate InTable(names: seq<string>, fs: seq<nat>) {
    forall k :: 0 <= k < |fs| ==> fs[k] > 0 && HighBit(fs[k]) < |names|
  }

  /** The names of some single flags. */
  function NamesOf(names: seq<string>, fs: seq<nat>): (ns: seq<string>)
    requires |names| <= 32 && forall k :: 0 <= k < |fs| ==> fs[k] > 0 && HighBit(fs[k]) < |names|
    ensures |ns| == |fs| && forall k :: 0 <= k < |fs| ==> ns[k] == ToString(names, fs[k])
  {
    seq(|fs|, k requires 0 <= k < |fs| => ToString(names, fs[k]))
  }

  lemma NamesOfFlags(names: seq<string>, e: nat)
    requires GoodNames(names) && (e == 0 || HighBit(e) < |names|)
    ensures InTable(names, FlagList(e))
    ensures AllKnown(names, NamesOf(names, FlagList(e)))
    ensures FlagsOfNames(names, NamesOf(names, FlagList(e))) == FlagList(e)
  {
    var fs := FlagList(e);
    FlagListCorrect(e);
    forall k | 0 <= k < |fs|
      ensures fs[k] > 0 && HighBit(fs[k]) < |names|
      ensures ToString(names, fs[k]) != "" && ToString(names, fs[k]) in names
      ensures FromString(names, ToString(names, fs[k])) == Some(fs[k])
    {
      assert IsFlagOf(fs[k], e);
      var i: nat :| fs[k] == Pow2(i) && Bit(e, i);
      assert e != 0 by { ZeroHasNoBits(i); }
      HighBitIsHighest(e);
      SingleFlagRoundTrip(names, i);
    }
  }

  lemma {:induction false} JoinIsGoodText(ns: seq<string>)
    requires forall i :: 0 <= i < |ns| ==> GoodText(ns[i])
    ensures GoodText(Join(ns))
  {
    if |ns| > 1 { JoinIsGoodText(ns[1..]); }
  }

  /** A flag set survives being listed, named, joined with commas and read back. */
  lemma FlagSetRoundTrip(names: seq<string>, e: nat)
    requires GoodNames(names) && (e == 0 || HighBit(e) < |names|)
    ensures InTable(names, FlagList(e))
    ensures GoodText(Join(NamesOf(names, FlagList(e))))
    ensures FlagsOf(names, true, Some(Join(NamesOf(names, FlagList(e))))) == Some(e)
  {
    NamesOfFlags(names, e);
    var ns := NamesOf(names, FlagList(e));
    FlagListCorrect(e);
    AcceptedFlagLists(names, Join(ns), ns);
    forall i | 0 <= i < |ns|
      ensures GoodText(ns[i])
    {
      assert ns[i] in names;
    }
    JoinIsGoodText(ns);
  }

  /** The first pair with a name decides its value. */
  lemma {:induction false} FirstValueIs(before: seq<(string, string)>, key: string, value: string, after: seq<(string, string)>)
    requires forall i :: 0 <= i < |before| ==> before[i].0 != key
    ensures FirstValue(before + [(key, value)] + after, key) == Some(value)
  {
    if before != [] {
      assert (before + [(key, value)] + after)[1..] == before[1..] + [(key, value)] + after;
      FirstValueIs(before[1..], key, value, after);
    }
  }

  /**
    End to end: put the names of a flag set, joined with commas, under a tag anywhere in a printed
    target, parse the target, and read the tag: the flag set comes back exactly.
  */
  method FlagSetThroughTarget(names: seq<string>, e: nat, parts: seq<string>, before: seq<(string, string)>, tag: string,
                              after: seq<(string, string)>, sep: char, fragment: string)
    returns (r: Option<nat>)
    requires GoodNames(names) && IsWord(e) && (e == 0 || HighBit(e) < |names|)
    requires forall i :: 0 <= i < |parts| ==> GoodPart(parts[i])
    requires forall i :: 0 <= i < |before| ==> GoodPair(before[i]) && before[i].0 != tag
    requires forall i :: 0 <= i < |after| ==> GoodPair(after[i])
    requires tag != "" && GoodText(tag) && (sep == '&' || sep == ';') && GoodFragment(fragment)
    ensures r == Some(e)
  {
    FlagSetRoundTrip(names, e);
    var flags := Enumerate(e);
    var csv := Join(NamesOf(names, flags));
    var pairs := before + [(tag, csv)] + after;
    assert GoodPair((tag, csv));
    FirstValueIs(before, tag, csv, after);
    TargetRoundTrips(parts, pairs, sep, fragment);
    var target := new TargetParser.FromUrl(PrintTarget(parts, pairs, sep, fragment));
    r := TargetGetComposableFlag(names, true, target, tag);
  }
}
