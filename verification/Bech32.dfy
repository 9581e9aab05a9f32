/** The string half of the codec in address/bech32m.go: encodeGeneric and
    decodeGeneric on ASCII strings, and the proof that they undo each other. */
module Bech32 {
  import opened Common
  import opened Checksum

  datatype BechError =
    | EmptyHrp
    | InvalidCharacter
    | MixedCase
    | SymbolOutOfRange
    | InvalidLength
    | NoSeparator
    | InvalidChecksum

  datatype Decoded = Decoded(hrp: AsciiString, data: seq<byte>, constant: Word)

  const CHARSET: string := "qpzry9x8gf2tvdw0s3jn54khce6mua7l"

  // ------------------------------------------------------------------ letters

  function LowerChar(c: char): char {
    if 'A' <= c <= 'Z' then (c as int + 32) as char else c
  }

  function UpperChar(c: char): char {
    if 'a' <= c <= 'z' then (c as int - 32) as char else c
  }

  function ToLower(s: AsciiString): (t: AsciiString)
    ensures |t| == |s|
  {
    seq(|s|, i requires 0 <= i < |s| => LowerChar(s[i]))
  }

  function ToUpper(s: AsciiString): (t: AsciiString)
    ensures |t| == |s|
  {
    seq(|s|, i requires 0 <= i < |s| => UpperChar(s[i]))
  }

  predicate MixesCase(s: AsciiString) { s != ToLower(s) && s != ToUpper(s) }

  predicate Printable(s: AsciiString) { forall i :: 0 <= i < |s| ==> 33 <= s[i] as int <= 126 }

  lemma LowerIdempotent(s: AsciiString)
    ensures ToLower(ToLower(s)) == ToLower(s)
    ensures !MixesCase(ToLower(s))
  {
  }

  lemma LowerPrintable(s: AsciiString)
    ensures Printable(ToLower(s)) <==> Printable(s)
  {
    forall i | 0 <= i < |s|
      ensures 33 <= LowerChar(s[i]) as int <= 126 <==> 33 <= s[i] as int <= 126
    {
    }
    if Printable(ToLower(s)) {
      forall i | 0 <= i < |s| ensures 33 <= s[i] as int <= 126 { assert ToLower(s)[i] == LowerChar(s[i]); }
    }
  }

  /** Index of the last `c`, or -1: strings.LastIndexByte. */
  function LastIndex(s: string, c: char): (i: int)
    ensures -1 <= i < |s|
    ensures i >= 0 ==> s[i] == c
    ensures forall k :: i < k < |s| ==> s[k] != c
  {
    if s == [] then -1
    else if s[|s| - 1] == c then |s| - 1
    else LastIndex(s[..|s| - 1], c)
  }

  lemma {:induction false} LastIndexUnique(a: string, c: char, b: string)
    requires forall k :: 0 <= k < |b| ==> b[k] != c
    ensures LastIndex(a + [c] + b, c) == |a|
    decreases |b|
  {
    var s := a + [c] + b;
    if b == [] {
      assert s[|s| - 1] == c;
    } else {
      assert s[..|s| - 1] == a + [c] + b[..|b| - 1];
      LastIndexUnique(a, c, b[..|b| - 1]);
    }
  }

  // ------------------------------------------------------------ the 32 letters

  // The lemmas hold for any alphabet of this kind; CHARSET is one.
  predicate IsAlphabet(abc: string) {
    && |abc| == 32
    && (forall i :: 0 <= i < 32 ==> 33 <= abc[i] as int <= 126 && abc[i] != '1' && LowerChar(abc[i]) == abc[i])
    && forall i, j :: 0 <= i < j < 32 ==> abc[i] != abc[j]
  }

  type Alphabet = abc: string | IsAlphabet(abc)
    witness (CharsetIsAlphabet(); CHARSET)

  const ABC: Alphabet := (CharsetIsAlphabet(); CHARSET)

  lemma CharsetDistinct(i: nat, j: nat)
    requires i < j < 32
    ensures CHARSET[i] != CHARSET[j]
  {
    if i < 4 {} else if i < 8 {} else if i < 12 {} else if i < 16 {} else if i < 20 {} else {}
  }

  lemma CharsetIsAlphabet()
    ensures IsAlphabet(CHARSET)
  {
    forall i, j | 0 <= i < j < 32 ensures CHARSET[i] != CHARSET[j] { CharsetDistinct(i, j); }
  }

  function Letters(abc: Alphabet, vs: seq<byte>): (t: AsciiString)
    requires Symbols(vs)
    ensures |t| == |vs| && forall k :: 0 <= k < |t| ==> t[k] != '1'
  {
    seq(|vs|, i requires 0 <= i < |vs| => abc[vs[i]])
  }

  ghost predicate IsLetter(abc: Alphabet, c: char) { exists v :: 0 <= v < 32 && abc[v] == c }

  ghost predicate AllLetters(abc: Alphabet, t: string) { forall i :: 0 <= i < |t| ==> IsLetter(abc, t[i]) }

  /** The symbol a letter stands for. */
  ghost function SymbolOf(abc: Alphabet, c: char): (v: byte)
    requires IsLetter(abc, c)
    ensures v < 32 && abc[v] == c
  {
    var v :| 0 <= v < 32 && abc[v] == c;
    v
  }

  ghost function SymbolsOf(abc: Alphabet, t: string): (vs: seq<byte>)
    requires AllLetters(abc, t)
    ensures |vs| == |t| && Symbols(vs)
  {
    seq(|t|, i requires 0 <= i < |t| => SymbolOf(abc, t[i]))
  }

  /** A lookup in charsetRev. */
  method FindSymbol(abc: Alphabet, c: char) returns (r: Option<byte>)
    ensures r == if IsLetter(abc, c) then Some(SymbolOf(abc, c)) else None
  {
    for i := 0 to 32
      invariant forall k :: 0 <= k < i ==> abc[k] != c
    {
      if abc[i] == c {
        return Some(i);
      }
    }
    return None;
  }

  // ------------------------------------------------------ encoding and decoding

  function Encode(hrp: AsciiString, data: seq<byte>, constant: Word): Result<AsciiString, BechError> {
    if |hrp| < 1 then Err(EmptyHrp)
    else if !Printable(hrp) then Err(InvalidCharacter)
    else if MixesCase(hrp) then Err(MixedCase)
    else
      var lower := ToLower(hrp);
      if !Symbols(data) then Err(SymbolOutOfRange)
      else Ok(Text(ABC, lower, data + Create(lower, data, constant)))
  }

  /** An HRP, the separator and the letters of the symbols. */
  function Text(abc: Alphabet, hrp: AsciiString, values: seq<byte>): (s: AsciiString)
    requires Symbols(values)
    ensures |s| == |hrp| + 1 + |values|
  {
    hrp + "1" + Letters(abc, values)
  }

  method CheckPrintable(hrp: AsciiString) returns (ok: bool)
    ensures ok == Printable(hrp)
  {
    for i := 0 to |hrp|
      invariant Printable(hrp[..i])
    {
      if hrp[i] as int < 33 || hrp[i] as int > 126 {
        return false;
      }
    }
    assert hrp[..|hrp|] == hrp;
    return true;
  }

  method WriteLetters(abc: Alphabet, prefix: string, values: seq<byte>) returns (r: Option<string>)
    ensures r == if Symbols(values) then Some(prefix + Letters(abc, values)) else None
  {
    var sb := prefix;
    for i := 0 to |values|
      invariant Symbols(values[..i])
      invariant sb == prefix + Letters(abc, values[..i])
    {
      if values[i] >= 32 {
        return None;
      }
      sb := sb + [abc[values[i]]];
      assert Letters(abc, values[..i + 1]) == Letters(abc, values[..i]) + [abc[values[i]]];
    }
    assert values[..|values|] == values;
    return Some(sb);
  }

  lemma ConcatSymbols(xs: seq<byte>, ys: seq<byte>)
    requires Symbols(ys)
    ensures Symbols(xs + ys) <==> Symbols(xs)
  {
    if Symbols(xs + ys) {
      forall i | 0 <= i < |xs| ensures xs[i] < 32 { assert (xs + ys)[i] == xs[i]; }
    }
  }

  method EncodeGeneric(hrp: AsciiString, data: seq<byte>, constant: Word) returns (r: Result<AsciiString, BechError>)
    ensures r == Encode(hrp, data, constant)
  {
    if |hrp| < 1 {
      return Err(EmptyHrp);
    }
    var printable := CheckPrintable(hrp);
    if !printable {
      return Err(InvalidCharacter);
    }
    var lower := ToLower(hrp);
    if lower != hrp && ToUpper(hrp) != hrp {
      return Err(MixedCase);
    }
    var checksum := BuildChecksum(lower, data, constant);
    var combined := data + checksum;
    ConcatSymbols(data, checksum);
    var sb := WriteLetters(ABC, lower + "1", combined);
    if sb.None? {
      return Err(SymbolOutOfRange);
    }
    return Ok(sb.value);
  }

  ghost function Decode(s: AsciiString): Result<Decoded, BechError> {
    if |s| < 8 || |s| > 90 then Err(InvalidLength)
    else if MixesCase(s) then Err(MixedCase)
    else DecodeLower(ABC, ToLower(s))
  }

  ghost function DecodeLower(abc: Alphabet, lower: AsciiString): Result<Decoded, BechError> {
    var sep := LastIndex(lower, '1');
    if sep < 1 || sep + 7 > |lower| then Err(NoSeparator)
    else if !Printable(lower[..sep]) then Err(InvalidCharacter)
    else if !AllLetters(abc, lower[sep + 1..]) then Err(InvalidCharacter)
    else DecodeValues(lower[..sep], SymbolsOf(abc, lower[sep + 1..]))
  }

  function DecodeValues(hrp: AsciiString, values: seq<byte>): Result<Decoded, BechError>
    requires |values| >= 6
  {
    var constant := Verify(hrp, values);
    if constant == 0 then Err(InvalidChecksum)
    else Ok(Decoded(hrp, values[..|values| - 6], constant))
  }

  method ReadLetters(abc: Alphabet, t: string) returns (r: Option<seq<byte>>)
    ensures r == if AllLetters(abc, t) then Some(SymbolsOf(abc, t)) else None
  {
    var values := [];
    for i := 0 to |t|
      invariant AllLetters(abc, t[..i]) && values == SymbolsOf(abc, t[..i])
    {
      var v := FindSymbol(abc, t[i]);
      if v.None? {
        return None;
      }
      values := values + [v.value];
    }
    assert t[..|t|] == t;
    return Some(values);
  }

  method DecodeGeneric(s: AsciiString) returns (r: Result<Decoded, BechError>)
    ensures r == Decode(s)
  {
    if |s| < 8 || |s| > 90 {
      return Err(InvalidLength);
    }
    var lower := ToLower(s);
    var upper := ToUpper(s);
    if s != lower && s != upper {
      return Err(MixedCase);
    }
    var sep := LastIndex(lower, '1');
    if sep < 1 || sep + 7 > |lower| {
      return Err(NoSeparator);
    }
    var hrp: AsciiString := lower[..sep];
    var printable := CheckPrintable(hrp);
    if !printable {
      return Err(InvalidCharacter);
    }
    var values := ReadLetters(ABC, lower[sep + 1..]);
    if values.None? {
      return Err(InvalidCharacter);
    }
    var constant := CheckChecksum(hrp, values.value);
    if constant == 0 {
      return Err(InvalidChecksum);
    }
    return Ok(Decoded(hrp, values.value[..|values.value| - 6], constant));
  }

  // ---------------------------------------------------------------- theorems

  /** Everything decodeGeneric sees in a text put together by encodeGeneric. */
  lemma TextParts(abc: Alphabet, hrp: AsciiString, values: seq<byte>)
    requires Symbols(values) && hrp == ToLower(hrp)
    ensures var s := Text(abc, hrp, values);
            && ToLower(s) == s
            && LastIndex(s, '1') == |hrp|
            && s[..|hrp|] == hrp
            && AllLetters(abc, s[|hrp| + 1..])
            && SymbolsOf(abc, s[|hrp| + 1..]) == values
  {
    var s := Text(abc, hrp, values);
    LastIndexUnique(hrp, '1', Letters(abc, values));
    assert s[|hrp| + 1..] == Letters(abc, values);
    forall i | 0 <= i < |s|
      ensures LowerChar(s[i]) == s[i]
    {
      if i < |hrp| {
        assert s[i] == ToLower(hrp)[i];
      } else if i > |hrp| {
        assert s[i] == abc[values[i - |hrp| - 1]];
      }
    }
  }

  lemma DecodeOfText(abc: Alphabet, hrp: AsciiString, values: seq<byte>)
    requires Symbols(values) && |values| >= 6
    requires hrp == ToLower(hrp) && |hrp| >= 1 && Printable(hrp)
    ensures DecodeLower(abc, Text(abc, hrp, values)) == DecodeValues(hrp, values)
  {
    TextParts(abc, hrp, values);
  }

  lemma TextOfDecode(abc: Alphabet, lower: AsciiString) returns (values: seq<byte>)
    requires DecodeLower(abc, lower).Ok? && ToLower(lower) == lower
    ensures Symbols(values) && |values| >= 6
    ensures var d := DecodeLower(abc, lower).value;
            lower == Text(abc, d.hrp, values) && DecodeValues(d.hrp, values) == Ok(d)
            && |d.hrp| >= 1 && Printable(d.hrp) && ToLower(d.hrp) == d.hrp
  {
    var sep := LastIndex(lower, '1');
    values := SymbolsOf(abc, lower[sep + 1..]);
    assert lower == lower[..sep] + "1" + lower[sep + 1..];
  }

  lemma ValuesCreated(hrp: AsciiString, data: seq<byte>, constant: Word)
    requires constant < REGISTER
    ensures DecodeValues(hrp, data + Create(hrp, data, constant)) ==
            if constant == BECH32 || constant == BECH32M then Ok(Decoded(hrp, data, constant)) else Err(InvalidChecksum)
  {
    var suffix := Create(hrp, data, constant);
    assert (data + suffix)[..|data + suffix| - 6] == data;
    if constant == BECH32 || constant == BECH32M {
      VerifyIffCreated(hrp, data, constant, suffix);
    } else {
      OtherConstantRejected(hrp, data, constant);
    }
  }

  lemma ValuesDecoded(hrp: AsciiString, values: seq<byte>)
    requires Symbols(values) && |values| >= 6 && DecodeValues(hrp, values).Ok?
    ensures var d := DecodeValues(hrp, values).value;
            Symbols(d.data) && values == d.data + Create(hrp, d.data, d.constant)
  {
    var d := DecodeValues(hrp, values).value;
    var suffix := values[|values| - 6..];
    assert values == d.data + suffix;
    VerifyIffCreated(hrp, d.data, d.constant, suffix);
  }

  lemma LowerNotMixed(s: AsciiString, abc: Alphabet, hrp: AsciiString, values: seq<byte>)
    requires Symbols(values) && hrp == ToLower(hrp) && s == Text(abc, hrp, values)
    ensures ToLower(s) == s && !MixesCase(s)
  {
    TextParts(abc, hrp, values);
  }

  /** Decoding an encoding: what comes back, for every payload, constant and length,
      also when the human-readable part itself contains '1'. */
  lemma DecodeOfEncode(hrp: AsciiString, data: seq<byte>, constant: Word)
    requires constant < REGISTER
    requires Encode(hrp, data, constant).Ok?
    ensures var s := Encode(hrp, data, constant).value;
            Decode(s) == if |s| > 90 then Err(InvalidLength)
                         else if constant == BECH32 || constant == BECH32M
                         then Ok(Decoded(ToLower(hrp), data, constant))
                         else Err(InvalidChecksum)
  {
    hide Create, DecodeLower, DecodeValues, Text, Printable, MixesCase, ToLower, LastIndex;
    var lower := ToLower(hrp);
    var values := data + Create(lower, data, constant);
    LowerIdempotent(hrp);
    LowerPrintable(hrp);
    LowerNotMixed(Text(ABC, lower, values), ABC, lower, values);
    DecodeOfText(ABC, lower, values);
    ValuesCreated(lower, data, constant);
  }

  /** Encoding a decoding gives back the text, in lower case. */
  lemma EncodeOfDecode(s: AsciiString)
    requires Decode(s).Ok?
    ensures var d := Decode(s).value;
            Encode(d.hrp, d.data, d.constant) == Ok(ToLower(s))
  {
    LowerIdempotent(s);
    var values := TextOfDecode(ABC, ToLower(s));
    ValuesDecoded(Decode(s).value.hrp, values);
  }

  /** Case does not matter unless it is mixed. */
  lemma CaseIgnored(s: AsciiString)
    requires !MixesCase(s)
    ensures Decode(s) == Decode(ToLower(s)) && !MixesCase(ToLower(s))
  {
    hide DecodeLower;
    LowerIdempotent(s);
  }

  /** The decoder accepts exactly the encodings, in one case, of up to 90 characters
      under one of the two variants. */
  lemma DecodeIff(s: AsciiString, d: Decoded)
    ensures Decode(s) == Ok(d) <==>
              && !MixesCase(s) && |s| <= 90 && (d.constant == BECH32 || d.constant == BECH32M)
              && ToLower(d.hrp) == d.hrp && Encode(d.hrp, d.data, d.constant) == Ok(ToLower(s))
  {
    if Decode(s) == Ok(d) {
      EncodeOfDecode(s);
      DecodedVariant(s);
    }
    if !MixesCase(s) && (d.constant == BECH32 || d.constant == BECH32M) && ToLower(d.hrp) == d.hrp
       && Encode(d.hrp, d.data, d.constant) == Ok(ToLower(s)) {
      hide Decode, Encode, MixesCase, ToLower;
      CaseIgnored(s);
      VariantsFit();
      DecodeOfEncode(d.hrp, d.data, d.constant);
    }
  }

  lemma VariantsFit()
    ensures BECH32 < REGISTER && BECH32M < REGISTER
  {
  }

  lemma DecodedVariant(s: AsciiString)
    requires Decode(s).Ok?
    ensures var d := Decode(s).value; !MixesCase(s) && |s| <= 90 && (d.constant == BECH32 || d.constant == BECH32M) && ToLower(d.hrp) == d.hrp
  {
    LowerIdempotent(s);
    var values := TextOfDecode(ABC, ToLower(s));
  }

  predicate IsLower(c: char) { 'a' <= c <= 'z' }
  predicate IsUpper(c: char) { 'A' <= c <= 'Z' }

  /** Mixed case is a small letter beside a capital one. */
  lemma MixesCaseIff(s: AsciiString)
    ensures MixesCase(s) <==> (exists i :: 0 <= i < |s| && IsLower(s[i])) && exists i :: 0 <= i < |s| && IsUpper(s[i])
  {
    if i :| 0 <= i < |s| && IsUpper(s[i]) {
      assert ToLower(s)[i] != s[i];
    }
    if i :| 0 <= i < |s| && IsLower(s[i]) {
      assert ToUpper(s)[i] != s[i];
    }
  }

  /** Exactly what can be encoded. */
  lemma EncodeIff(hrp: AsciiString, data: seq<byte>, constant: Word)
    ensures Encode(hrp, data, constant).Ok? <==>
              && hrp != "" && (forall i :: 0 <= i < |hrp| ==> '!' <= hrp[i] <= '~')
              && (forall i, j :: 0 <= i < |hrp| && 0 <= j < |hrp| ==> !(IsLower(hrp[i]) && IsUpper(hrp[j])))
              && forall i :: 0 <= i < |data| ==> data[i] < 32
  {
    hide Text, Create, MixesCase;
    MixesCaseIff(hrp);
  }

  /** Of several things wrong with what is to be encoded, the first of these is reported:
      no prefix, a character that is not visible, two cases, a symbol above 31. */
  lemma EncodeRefusal(hrp: AsciiString, data: seq<byte>, constant: Word)
    requires Encode(hrp, data, constant).Err?
    ensures var visible := forall i :: 0 <= i < |hrp| ==> '!' <= hrp[i] <= '~';
            var mixed := exists i, j :: 0 <= i < |hrp| && 0 <= j < |hrp| && IsLower(hrp[i]) && IsUpper(hrp[j]);
            match Encode(hrp, data, constant).error
            case EmptyHrp => hrp == ""
            case InvalidCharacter => hrp != "" && !visible
            case MixedCase => hrp != "" && visible && mixed
            case SymbolOutOfRange => hrp != "" && visible && !mixed && exists i :: 0 <= i < |data| && data[i] >= 32
            case _ => false
  {
    hide Text, Create, MixesCase;
    MixesCaseIff(hrp);
  }

  /** Of several things wrong with a text, its length is reported first, then two cases,
      and a wrong checksum last. */
  lemma DecodeRefusal(s: AsciiString)
    requires Decode(s).Err?
    ensures Decode(s).error == InvalidLength <==> |s| < 8 || |s| > 90
    ensures Decode(s).error == MixedCase <==> 8 <= |s| <= 90 && MixesCase(s)
    ensures Decode(s).error == NoSeparator <==>
              8 <= |s| <= 90 && !MixesCase(s) && (LastIndex(ToLower(s), '1') < 1 || LastIndex(ToLower(s), '1') + 7 > |s|)
    ensures Decode(s).error == InvalidChecksum ==>
              var lower := ToLower(s);
              var sep := LastIndex(lower, '1');
              1 <= sep <= |s| - 7 && AllLetters(ABC, lower[sep + 1..]) && Verify(lower[..sep], SymbolsOf(ABC, lower[sep + 1..])) == 0
  {
    hide MixesCase, LastIndex, AllLetters, SymbolsOf, Verify, Printable;
  }

  /** Two texts with the separator in the same place that agree outside six
      consecutive letters after it, `lo` letters on. */
  predicate BurstApart(s: AsciiString, t: AsciiString, lo: nat) {
    var sep := LastIndex(s, '1');
    sep == LastIndex(t, '1') && DifferWithin(s, t, sep + 1 + lo)
  }

  lemma BurstSymbols(abc: Alphabet, s: AsciiString, t: AsciiString, start: nat, lo: nat)
    requires DifferWithin(s, t, start + lo) && s != t
    requires AllLetters(abc, s[start..]) && AllLetters(abc, t[start..])
    ensures DifferWithin(SymbolsOf(abc, s[start..]), SymbolsOf(abc, t[start..]), lo)
    ensures SymbolsOf(abc, s[start..]) != SymbolsOf(abc, t[start..])
  {
    var x, y := SymbolsOf(abc, s[start..]), SymbolsOf(abc, t[start..]);
    var i :| 0 <= i < |s| && s[i] != t[i];
    assert abc[x[i - start]] == s[start..][i - start] && abc[y[i - start]] == t[start..][i - start];
  }

  lemma BurstValues(hrp: AsciiString, x: seq<byte>, y: seq<byte>, lo: nat)
    requires |x| >= 6 && Symbols(x) && Symbols(y) && DifferWithin(x, y, lo) && x != y
    requires DecodeValues(hrp, x).Ok? && DecodeValues(hrp, y).Ok?
    ensures DecodeValues(hrp, x).value.constant != DecodeValues(hrp, y).value.constant
  {
    BurstNotVerified(hrp, x, y, lo);
  }

  /** A burst of wrong letters is never accepted under the variant the right text has. */
  lemma BurstRejected(s: AsciiString, t: AsciiString, lo: nat)
    requires Decode(s).Ok? && Decode(t).Ok?
    requires BurstApart(ToLower(s), ToLower(t), lo)
    requires ToLower(s) != ToLower(t)
    ensures Decode(s).value.constant != Decode(t).value.constant
  {
    BurstLower(ABC, ToLower(s), ToLower(t), lo);
  }

  lemma SamePrefix(s: AsciiString, t: AsciiString, sep: nat, from: nat)
    requires DifferWithin(s, t, from) && sep <= from && sep <= |s|
    ensures sep <= |t| && s[..sep] == t[..sep]
  {
  }

  lemma BurstLower(abc: Alphabet, s: AsciiString, t: AsciiString, lo: nat)
    requires DecodeLower(abc, s).Ok? && DecodeLower(abc, t).Ok?
    requires BurstApart(s, t, lo) && s != t
    ensures DecodeLower(abc, s).value.constant != DecodeLower(abc, t).value.constant
  {
    hide DecodeValues, LastIndex, Printable, AllLetters, SymbolsOf;
    var sep := LastIndex(s, '1');
    BurstSymbols(abc, s, t, sep + 1, lo);
    SamePrefix(s, t, sep, sep + 1 + lo);
    BurstValues(s[..sep], SymbolsOf(abc, s[sep + 1..]), SymbolsOf(abc, t[sep + 1..]), lo);
  }
}
