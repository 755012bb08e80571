/** The generator of enum classes: finding and stripping the prefix that all names share. */
module EnumPrefix {
  import opened Options

  const INT_MAX: nat := 0x7fff_ffff

  /** std::mismatch: length of the longest prefix that two names share. */
  function Mismatch(a: string, b: string): (d: nat)
    ensures d <= |a| && d <= |b| && a[..d] == b[..d]
    ensures d < |a| && d < |b| ==> a[d] != b[d]
  {
    if a == "" || b == "" || a[0] != b[0] then 0
    else
      var d := Mismatch(a[1..], b[1..]);
      assert a[..1 + d] == [a[0]] + a[1..][..d] && b[..1 + d] == [b[0]] + b[1..][..d];
      1 + d
  }

  /** Every name has `p` as a prefix. */
  ghost predicate CommonPrefix(names: seq<string>, p: string) {
    forall i :: 0 <= i < |names| ==> p <= names[i]
  }

  /** `n` is the length of the longest prefix common to all names, as far as an int can count. */
  ghost predicate LongestCommon(names: seq<string>, n: nat) {
    && names != [] && n <= |names[0]|
    && CommonPrefix(names, names[0][..n])
    && forall p :: CommonPrefix(names, p) && |p| <= INT_MAX ==> |p| <= n
  }

  /** Two names share a prefix of length m exactly when m is at most their mismatch. */
  lemma {:induction false} MismatchIff(a: string, b: string, m: nat)
    requires m <= |a|
    ensures a[..m] <= b <==> m <= Mismatch(a, b)
  {
    if m > 0 && b != "" && a[0] == b[0] {
      MismatchIff(a[1..], b[1..], m - 1);
      assert a[..m] == [a[0]] + a[1..][..m - 1];
      assert b == [b[0]] + b[1..];
      assert a[..m] <= b <==> a[1..][..m - 1] <= b[1..];
    } else if m > 0 {
      assert a[..m][0] == a[0];
    }
  }

  /** The smallest mismatch between neighbours, among the first `n` names. */
  function NeighbourMin(names: seq<string>, n: nat): nat
    requires n <= |names|
  {
    if n <= 1 then INT_MAX
    else
      var d := Mismatch(names[n - 2], names[n - 1]);
      var before := NeighbourMin(names, n - 1);
      if d < before then d else before
  }

  /** Sharing a prefix with every neighbour is sharing it with all. */
  lemma {:induction false} NeighboursShare(names: seq<string>, n: nat, m: nat)
    requires 2 <= n <= |names| && m <= |names[0]| && m <= INT_MAX
    ensures m <= NeighbourMin(names, n) <==> CommonPrefix(names[..n], names[0][..m])
  {
    var p := names[0][..m];
    var a, b := names[n - 2], names[n - 1];
    assert names[..n] == names[..n - 1] + [b];
    if n == 2 {
      assert names[..1] == [a];
      MismatchIff(a, b, m);
    } else {
      NeighboursShare(names, n - 1, m);
      if CommonPrefix(names[..n - 1], p) {
        assert p <= names[..n - 1][n - 2];
        assert a[..m] == p;
        MismatchIff(a, b, m);
      } else {
        assert CommonPrefix(names[..n], p) ==> CommonPrefix(names[..n - 1], p) by {
          assert forall i :: 0 <= i < n - 1 ==> names[..n - 1][i] == names[..n][i];
        }
      }
    }
  }

  /** The running minimum of the mismatches between neighbouring names. */
  method FindPrefix(names: seq<string>) returns (pos: nat)
    ensures pos == NeighbourMin(names, |names|)
  {
    pos := INT_MAX;
    var first := true;
    var elems: seq<string> := [];
    for i := 0 to |names|
      invariant elems == names[..i] && first == (i == 0)
      invariant pos == NeighbourMin(names, i)
    {
      if !first {
        assert elems[|elems| - 1] == names[i - 1];
        var d := Mismatch(elems[|elems| - 1], names[i]);
        if d < pos {
          pos := d;
        }
      }
      elems := elems + [names[i]];
      first := false;
    }
  }

  /** For two or more names it is the length of the longest common prefix. */
  lemma NeighbourMinIsLongestCommon(names: seq<string>)
    requires |names| >= 2
    ensures LongestCommon(names, NeighbourMin(names, |names|))
  {
    var n := NeighbourMin(names, |names|);
    NeighbourMinBound(names, |names|);
    assert names[..|names|] == names;
    NeighboursShare(names, |names|, n);
    forall p | CommonPrefix(names, p) && |p| <= INT_MAX
      ensures |p| <= n
    {
      assert p <= names[0];
      assert names[0][..|p|] == p;
      NeighboursShare(names, |names|, |p|);
    }
  }

  lemma {:induction false} NeighbourMinBound(names: seq<string>, n: nat)
    requires 2 <= n <= |names|
    ensures NeighbourMin(names, n) <= |names[0]| && NeighbourMin(names, n) <= INT_MAX
  {
    if n > 2 { NeighbourMinBound(names, n - 1); }
  }

  /** Removes `pos` characters from the front of every name; the printed names are what is left. */
  method StripPrefix(names: seq<string>, pos: nat) returns (stripped: seq<string>)
    requires forall i :: 0 <= i < |names| ==> pos <= |names[i]|
    ensures |stripped| == |names| && forall i :: 0 <= i < |names| ==> stripped[i] == names[i][pos..]
  {
    stripped := names;
    for i := 0 to |names|
      invariant |stripped| == |names|
      invariant forall j :: 0 <= j < i ==> stripped[j] == names[j][pos..]
      invariant forall j :: i <= j < |names| ==> stripped[j] == names[j]
    {
      stripped := stripped[i := stripped[i][pos..]];
    }
  }

  // ---------------------------------------------------------------- an enum with one element

  function Upper(c: char): char {
    if 'a' <= c <= 'z' then c - 'a' + 'A' else c
  }

  /** Every capital starts a word: an underscore before it, and all letters in upper case. */
  function Words(name: string): string {
    if name == "" then ""
    else (if 'A' <= name[0] <= 'Z' then ['_', name[0]] else [Upper(name[0])]) + Words(name[1..])
  }

  lemma {:induction false} WordsSnoc(name: string, c: char)
    ensures Words(name + [c]) == Words(name) + if 'A' <= c <= 'Z' then ['_', c] else [Upper(c)]
  {
    if name == "" {
      assert name + [c] == [c];
    } else {
      assert (name + [c])[1..] == name[1..] + [c];
      WordsSnoc(name[1..], c);
    }
  }

  /** Capitals and other characters, by their codes. */
  lemma WordsOfChar(c: char)
    ensures Words([c]) == if 65 <= c as int <= 90 then "_" + [c] else if 97 <= c as int <= 122 then [(c as int - 32) as char] else [c]
  {
    assert [c][1..] == "";
  }

  lemma {:induction false} WordsOfText(a: string, b: string)
    ensures Words(a + b) == Words(a) + Words(b)
  {
    if a == "" {
      assert a + b == b;
    } else {
      assert (a + b)[1..] == a[1..] + b;
      WordsOfText(a[1..], b);
    }
  }

  /** Position of the first underscore from `i` on, or the length. */
  function Underscore(s: string, i: nat): (k: nat)
    requires i <= |s|
    ensures i <= k <= |s| && (k < |s| ==> s[k] == '_') && forall j :: i <= j < k ==> s[j] != '_'
    decreases |s| - i
  {
    if i == |s| || s[i] == '_' then i else Underscore(s, i + 1)
  }

  ghost predicate FewerThanTwoUnderscores(s: string) {
    forall i, j :: 0 <= i < j < |s| ==> s[i] != '_' || s[j] != '_'
  }

  /** What follows the second underscore; the position after "none" wraps around to the start. */
  function ElementStart(elem: string): (k: nat)
    ensures k <= |elem|
    ensures k == 0 <==> FewerThanTwoUnderscores(elem)
    ensures k > 0 ==> elem[k - 1] == '_' && exists i :: 0 <= i < k - 1 && elem[i] == '_' && forall j :: 0 <= j < k - 1 && j != i ==> elem[j] != '_'
  {
    var first := Underscore(elem, 0);
    if first == |elem| then 0
    else
      var second := Underscore(elem, first + 1);
      if second == |elem| then 0
      else
        assert elem[first] == '_' && elem[second] == '_';
        second + 1
  }

  lemma NoLongerCommon(a: string, b: string)
    ensures forall p :: p <= a && p <= b ==> |p| <= Mismatch(a, b)
  {
    var d := Mismatch(a, b);
    forall p | p <= a && p <= b
      ensures |p| <= d
    {
      assert forall j :: 0 <= j < |p| ==> a[j] == p[j] && b[j] == p[j];
    }
  }

  /** The prefix of a single element: the words of the enum's name that its own name has after the second underscore. */
  function SinglePrefix(enumName: string, elem: string): (pos: nat)
    requires enumName != ""
    ensures pos <= |elem| - ElementStart(elem)
    ensures elem[ElementStart(elem)..][..pos] <= Words(enumName)[1..]
    ensures forall p :: p <= Words(enumName)[1..] && p <= elem[ElementStart(elem)..] ==> |p| <= pos
  {
    assert |Words(enumName)| >= 1;
    var d := Mismatch(Words(enumName)[1..], elem[ElementStart(elem)..]);
    NoLongerCommon(Words(enumName)[1..], elem[ElementStart(elem)..]);
    d
  }

  /** An enum whose name is empty has no first character to drop, and the generator gives up. */
  method FindSinglePrefix(enumName: string, elem: string) returns (pos: Option<nat>)
    ensures pos == if enumName == "" then None else Some(SinglePrefix(enumName, elem))
  {
    var nameCh := "";
    for i := 0 to |enumName|
      invariant nameCh == Words(enumName[..i])
    {
      var c := enumName[i];
      WordsSnoc(enumName[..i], c);
      assert enumName[..i + 1] == enumName[..i] + [c];
      if 'A' <= c <= 'Z' {
        nameCh := nameCh + ['_'];
        nameCh := nameCh + [c];
        assert nameCh == Words(enumName[..i]) + ['_', c];
      } else {
        nameCh := nameCh + [Upper(c)];
      }
    }
    assert enumName[..|enumName|] == enumName;
    if nameCh == "" {
      return None;
    }
    nameCh := nameCh[1..];
    return Some(Mismatch(nameCh, elem[ElementStart(elem)..]));
  }

  /**
    What is stripped from a single element is counted after its second underscore and removed from its
    front: it leaves what follows the words it has in common with the enum exactly when it has fewer
    than two underscores.
  */
  lemma SingleStripIff(enumName: string, elem: string)
    requires enumName != ""
    ensures var pos := SinglePrefix(enumName, elem);
            elem[pos..] == elem[ElementStart(elem)..][pos..] <==> FewerThanTwoUnderscores(elem)
  {
    DropTwice(elem, ElementStart(elem), SinglePrefix(enumName, elem));
  }

  lemma DropTwice(s: string, k: nat, n: nat)
    requires k + n <= |s|
    ensures s[n..] == s[k..][n..] <==> k == 0
  {
    assert |s[n..]| == |s| - n && |s[k..][n..]| == |s| - k - n;
    if k == 0 { assert s[0..] == s; }
  }

  // ---------------------------------------------------------------- the generator

  /** What is stripped gives the names back when put in front again, and distinct names stay distinct. */
  ghost predicate Strips(names: seq<string>, pos: nat, stripped: seq<string>) {
    && |stripped| == |names|
    && (forall i :: 0 <= i < |names| ==> pos <= |names[i]|)
    && (forall i :: 0 <= i < |names| ==> names[i] == names[0][..pos] + stripped[i])
    && forall i, j :: 0 <= i < j < |names| && names[i] != names[j] ==> stripped[i] != stripped[j]
  }

  /** Stripping is in bounds for every name, whatever the number of elements. */
  method Generate(enumName: string, names: seq<string>) returns (pos: nat, stripped: Option<seq<string>>)
    ensures stripped.None? <==> |names| == 1 && enumName == ""
    ensures |names| >= 2 ==> LongestCommon(names, pos)
    ensures |names| == 1 && enumName != "" ==> pos == SinglePrefix(enumName, names[0])
    ensures stripped.Some? ==> Strips(names, pos, stripped.value)
  {
    pos := FindPrefix(names);
    if |names| == 1 {
      var single := FindSinglePrefix(enumName, names[0]);
      if single.None? {
        return pos, None;
      }
      pos := single.value;
    } else if |names| >= 2 {
      NeighbourMinIsLongestCommon(names);
    }
    CommonPrefixSplits(names, pos);
    var rest := StripPrefix(names, pos);
    StrippedNames(names, pos, rest);
    stripped := Some(rest);
  }

  ghost predicate HasPrefix(names: seq<string>, n: nat) {
    && (forall i :: 0 <= i < |names| ==> n <= |names[i]|)
    && forall i :: 0 <= i < |names| ==> names[i][..n] == names[0][..n]
  }

  lemma CommonPrefixSplits(names: seq<string>, n: nat)
    requires |names| >= 2 ==> LongestCommon(names, n)
    requires |names| == 1 ==> n <= |names[0]|
    ensures HasPrefix(names, n)
  {
    forall i | 0 <= i < |names|
      ensures n <= |names[i]| && names[i][..n] == names[0][..n]
    {
      if |names| >= 2 { assert names[0][..n] <= names[i]; }
    }
  }

  lemma StrippedNames(names: seq<string>, n: nat, stripped: seq<string>)
    requires HasPrefix(names, n)
    requires |stripped| == |names| && forall i :: 0 <= i < |names| ==> stripped[i] == names[i][n..]
    ensures Strips(names, n, stripped)
  {
    forall i | 0 <= i < |names|
      ensures names[i] == names[0][..n] + stripped[i]
    {
      assert names[i] == names[i][..n] + names[i][n..];
    }
  }
}
