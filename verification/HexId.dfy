/** The textual form of store ids, and retrieval by that form. */
module HexId {
  import opened Options
  import opened Words
  import opened FreeId
  import opened Positional
  import opened AsyncSystem
  import opened AsyncStores

  const HEX: string := "0123456789abcdef"

  predicate IsHexDigit(c: char) {
    '0' <= c <= '9' || 'A' <= c <= 'F' || 'a' <= c <= 'f'
  }

  /** What a character adds; characters that are not hex digits add nothing. */
  function Digit(c: char): (d: nat)
    ensures d < 16
  {
    if '0' <= c <= '9' then c as int - '0' as int
    else if 'A' <= c <= 'F' then c as int - 'A' as int + 10
    else if 'a' <= c <= 'f' then c as int - 'a' as int + 10
    else 0
  }

  /** [0-9A-Fa-f]{1,8} */
  predicate IsHexId(s: string) {
    1 <= |s| <= 8 && forall c :: c in s ==> IsHexDigit(c)
  }

  /** Which strings are ids, and what their characters stand for. */
  lemma HexCharacters(s: string, c: char, i: nat)
    ensures IsHexId(s) <==> 1 <= |s| <= 8 && forall x :: x in s ==> x in "0123456789ABCDEFabcdef"
    ensures c !in "0123456789ABCDEFabcdef" ==> Digit(c) == 0
    ensures i < 10 ==> Digit("0123456789"[i]) == i
    ensures i < 6 ==> Digit("ABCDEF"[i]) == 10 + i && Digit("abcdef"[i]) == 10 + i
  {
    forall x
      ensures IsHexDigit(x) <==> x in "0123456789ABCDEFabcdef"
    {
      HexCharacter(x);
    }
    HexCharacter(c);
  }

  lemma HexCharacter(c: char)
    ensures IsHexDigit(c) <==> c in "0123456789ABCDEFabcdef"
  {
    if IsHexDigit(c) {
      var d := c as int;
      assert 48 <= d <= 57 || 65 <= d <= 70 || 97 <= d <= 102;
    }
  }

  function Digits(s: string): (ds: seq<nat>)
    ensures |ds| == |s| && forall i :: 0 <= i < |s| ==> ds[i] == Digit(s[i])
  {
    seq(|s|, i requires 0 <= i < |s| => Digit(s[i]))
  }

  /** The number that an id string denotes. */
  function HexValue(s: string): nat {
    Value(Digits(s), 16)
  }

  lemma HexValueSnoc(s: string, c: char)
    ensures HexValue(s + [c]) == HexValue(s) * 16 + Digit(c)
  {
    assert Digits(s + [c]) == Digits(s) + [Digit(c)];
    ValueSnoc(Digits(s), Digit(c), 16);
  }

  lemma PowSixteenEight()
    ensures Pow(16, 8) == IDS
  {
    assert Pow(16, 2) == 0x100;
    assert Pow(16, 4) == 0x1_0000;
    assert Pow(16, 6) == 0x100_0000;
  }

  /** An id string never wraps the 32-bit accumulator. */
  lemma HexIdFits(s: string)
    requires |s| <= 8
    ensures HexValue(s) < IDS
  {
    ValueBound(Digits(s), 16);
    PowMonotone(16, |s|, 8);
    PowSixteenEight();
  }

  lemma HornerStep(sv: string, i: nat)
    requires i < |sv|
    ensures Wrap(Wrap(Wrap(HexValue(sv[..i])) * 16) + Digit(sv[i])) == Wrap(HexValue(sv[..i + 1]))
  {
    var v := HexValue(sv[..i]);
    WrapMul(v, 16);
    WrapAdd(v * 16, Digit(sv[i]));
    HexValueSnoc(sv[..i], sv[i]);
    assert sv[..i + 1] == sv[..i] + [sv[i]];
  }

  /** Decodes on a wrapping 32-bit accumulator; exact on everything numeric_id_pattern matches. */
  method HexDecodeId(sv: string) returns (ret: Id)
    ensures ret == Wrap(HexValue(sv))
    ensures |sv| <= 8 ==> ret == HexValue(sv)
  {
    ret := 0;
    for i := 0 to |sv|
      invariant ret == Wrap(HexValue(sv[..i]))
    {
      HornerStep(sv, i);
      ret := Wrap(ret * 16);
      ret := Wrap(ret + Digit(sv[i]));
    }
    assert sv[..|sv|] == sv;
    if |sv| <= 8 { HexIdFits(sv); }
  }

  /** The eight characters that the encoder writes: two digits of the id, 16 bits apart. */
  function WrittenEncoding(id: Id): string {
    "000000" + [HEX[id / 0x1_0000 % 16], HEX[id % 16]]
  }

  /** Fills the buffer from the back, shifting the id by 16 bits after each digit. */
  method HexEncodeId(id: Id) returns (ret: array<char>)
    ensures fresh(ret) && ret[..] == WrittenEncoding(id)
  {
    ret := new char[8](_ => '\0');
    var rest := id;
    var i := 8;
    while i > 0
      invariant 0 <= i <= 8
      invariant rest == (if i == 8 then id else if i == 7 then id / 0x1_0000 else 0)
      invariant i <= 7 ==> ret[7] == HEX[id % 16]
      invariant i <= 6 ==> ret[6] == HEX[id / 0x1_0000 % 16]
      invariant forall k :: i <= k < 6 ==> ret[k] == '0'
    {
      i := i - 1;
      ret[i] := HEX[rest % 16];
      rest := rest / 0x1_0000;
    }
  }

  lemma HexDigitValue(d: nat)
    requires d < 16
    ensures Digit(HEX[d]) == d && IsHexDigit(HEX[d])
  {
  }

  /** The encoder as written loses every bit outside 0-3 and 16-19; it is faithful below 16 only. */
  lemma WrittenEncodingDecodes(id: Id)
    ensures IsHexId(WrittenEncoding(id))
    ensures HexValue(WrittenEncoding(id)) == id % 16 + 16 * (id / 0x1_0000 % 16)
    ensures HexValue(WrittenEncoding(id)) == id <==> id < 16
  {
    TwoDigits(id / 0x1_0000 % 16, id % 16);
    assert WrittenEncoding(id) == "000000" + [HEX[id / 0x1_0000 % 16]] + [HEX[id % 16]];
  }

  lemma TwoDigits(hi: nat, lo: nat)
    requires hi < 16 && lo < 16
    ensures IsHexId("000000" + [HEX[hi]] + [HEX[lo]])
    ensures HexValue("000000" + [HEX[hi]] + [HEX[lo]]) == lo + 16 * hi
  {
    HexDigitValue(hi);
    HexDigitValue(lo);
    ValueLeadingZeros(6, [], 16);
    assert Digits("000000") == seq(6, i => 0) + [];
    HexValueSnoc("000000", HEX[hi]);
    HexValueSnoc("000000" + [HEX[hi]], HEX[lo]);
  }

  // ---------------------------------------------------------------- the encoder with a 4-bit shift

  /** What a shift by 4 bits would produce: the eight nibbles of the id. */
  function NibbleEncoding(id: Id): (s: string)
    ensures |s| == 8
  {
    seq(8, i requires 0 <= i < 8 => HEX[LowDigits(id, 16, 8)[i]])
  }

  /** With a 4-bit shift the round trip is the identity on every 32-bit id. */
  lemma NibbleEncodingRoundTrip(id: Id)
    ensures IsHexId(NibbleEncoding(id)) && HexValue(NibbleEncoding(id)) == id
  {
    var ds := LowDigits(id, 16, 8);
    forall i | 0 <= i < 8
      ensures Digit(NibbleEncoding(id)[i]) == ds[i] && IsHexDigit(NibbleEncoding(id)[i])
    {
      HexDigitValue(ds[i]);
    }
    assert Digits(NibbleEncoding(id)) == ds;
    PowSixteenEight();
    LowDigitsValue(id, 16, 8);
  }

  function Lower(c: char): char {
    if 'A' <= c <= 'F' then (c as int - 'A' as int + 'a' as int) as char else c
  }

  /** The string padded with zeros to eight characters, in lower case. */
  function Canonical(s: string): (r: string)
    requires |s| <= 8
    ensures |r| == 8
  {
    seq(8 - |s|, i => '0') + seq(|s|, i requires 0 <= i < |s| => Lower(s[i]))
  }

  lemma LowerKeepsDigit(c: char)
    requires IsHexDigit(c)
    ensures HEX[Digit(c)] == Lower(c) && Digit(Lower(c)) == Digit(c)
  {
  }

  /** Re-encoding a decoded id string, with a 4-bit shift, gives its canonical form. */
  lemma NibbleEncodingOfDecoded(s: string)
    requires IsHexId(s)
    ensures HexValue(s) < IDS && NibbleEncoding(HexValue(s)) == Canonical(s)
  {
    HexIdFits(s);
    var ds := seq(8 - |s|, i => 0) + Digits(s);
    ValueLeadingZeros(8 - |s|, Digits(s), 16);
    LowDigitsOfValue(ds, 16);
    forall i | 0 <= i < 8
      ensures NibbleEncoding(HexValue(s))[i] == Canonical(s)[i]
    {
      if i >= 8 - |s| { LowerKeepsDigit(s[i - (8 - |s|)]); }
    }
  }

  /** Decoding ignores case and leading zeros, and nothing else. */
  lemma SameIdIffSameCanonical(a: string, b: string)
    requires IsHexId(a) && IsHexId(b)
    ensures HexValue(a) == HexValue(b) <==> Canonical(a) == Canonical(b)
  {
    NibbleEncodingOfDecoded(a);
    NibbleEncodingOfDecoded(b);
    NibbleEncodingRoundTrip(HexValue(a));
    NibbleEncodingRoundTrip(HexValue(b));
  }

  // ---------------------------------------------------------------- retrieval

  datatype HttpStatus = NotFound | Processing | Found

  /** The string id is rejected unless it matches the pattern; otherwise the store is polled. */
  method HandleAsyncRetrieve(store: AsyncStore, strId: string) returns (status: HttpStatus, body: string)
    requires Inv(store.View())
    modifies store`elems
    ensures !IsHexId(strId) ==> status == NotFound && body == "" && store.View() == old(store.View())
    ensures IsHexId(strId) ==>
              && HexValue(strId) < IDS
              && store.View() == Next(old(store.View()), Poll(HexValue(strId)))
              && var (found, value) := PollResult(old(store.View()), HexValue(strId));
                 && body == value
                 && (status == NotFound <==> found == NonExistent)
                 && (status == Processing <==> found == InProgress)
    ensures Inv(store.View())
  {
    if !IsHexId(strId) {
      return NotFound, "";
    }
    var id := HexDecodeId(strId);
    var found, value := store.ValueIfReady(id);
    match found
    case NonExistent => return NotFound, "";
    case InProgress => return Processing, "";
    case Finished => return Found, value;
  }

  /**
    The string a client was given for a finished task retrieves that task exactly when its id is
    below 16. With a 4-bit shift it always would.
  */
  lemma GivenStringRetrievesOwnTask(s: State, t: nat)
    requires Inv(s) && Holds(s, t) && s.tasks[t].phase == Ready
    ensures var id := s.tasks[t].id;
            && HexValue(WrittenEncoding(id)) < IDS
            && (Delivered(s, Poll(HexValue(WrittenEncoding(id)))) == Some(t) <==> id < 16)
            && HexValue(NibbleEncoding(id)) < IDS
            && Delivered(s, Poll(HexValue(NibbleEncoding(id)))) == Some(t)
  {
    var id := s.tasks[t].id;
    WrittenEncodingDecodes(id);
    NibbleEncodingRoundTrip(id);
  }

  /** So over every run exactly the first sixteen requests, of those before the ids wrap, can be retrieved by their string. */
  lemma FirstSixteenRetrieve(es: seq<Event>, t: nat)
    requires ValidRun(Initial, es) && t < |Run(Initial, es).tasks| && t < IDS
    requires Holds(Run(Initial, es), t) && Run(Initial, es).tasks[t].phase == Ready
    ensures var id := Run(Initial, es).tasks[t].id;
            && HexValue(WrittenEncoding(id)) < IDS
            && (Delivered(Run(Initial, es), Poll(HexValue(WrittenEncoding(id)))) == Some(t) <==> t < 16)
  {
    RunKeepsInv(Initial, es);
    IdsAreIncremental(es, t);
    GivenStringRetrievesOwnTask(Run(Initial, es), t);
  }
}
