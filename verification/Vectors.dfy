/** Published test vectors of BIP-173 and BIP-350, which fix the generator, the two
    constants, the expansion of the prefix and the alphabet. */
module Vectors {
  import opened Common
  import opened Checksum
  import opened Bech32
  import Regroup

  /** One symbol, as section "Bech32" of BIP-173 words it: the five generators by the
      five bits that leave the register. */
  function Moved(chk: Word, v: bv8): Word {
    ((chk & 0x1ffffff) << 5) ^ (v as Word)
    ^ (if chk & 0x2000000 != 0 then 0x3b6a57b2 else 0) ^ (if chk & 0x4000000 != 0 then 0x26508e6d else 0)
    ^ (if chk & 0x8000000 != 0 then 0x1ea119fa else 0) ^ (if chk & 0x10000000 != 0 then 0x3d4233dd else 0)
    ^ (if chk & 0x20000000 != 0 then 0x2a1462b3 else 0)
  }

  lemma TapsAre(chk: Word)
    ensures Tap(chk >> 25, 0) == (if chk & 0x2000000 != 0 then 0x3b6a57b2 else 0)
    ensures Tap(chk >> 25, 1) == (if chk & 0x4000000 != 0 then 0x26508e6d else 0)
    ensures Tap(chk >> 25, 2) == (if chk & 0x8000000 != 0 then 0x1ea119fa else 0)
    ensures Tap(chk >> 25, 3) == (if chk & 0x10000000 != 0 then 0x3d4233dd else 0)
    ensures Tap(chk >> 25, 4) == (if chk & 0x20000000 != 0 then 0x2a1462b3 else 0)
  {
  }

  lemma StepIsMoved(chk: Word, v: bv8)
    ensures Step(chk, v) == Moved(chk, v)
  {
    TapsAre(chk);
    FeedbackUnrolled(chk >> 25);
    hide Tap;
  }

  /** Three symbols further on. */
  lemma Append(before: seq<bv8>, from: Word, a: bv8, b: bv8, c: bv8, to: Word) returns (after: seq<bv8>)
    requires Run(1, before) == from && Moved(Moved(Moved(from, a), b), c) == to
    ensures after == before + [a, b, c] && Run(1, after) == to
  {
    after := before + [a, b, c];
    assert after == before + [a] + [b] + [c];
    hide Step, Moved;
    StepIsMoved(from, a);
    StepIsMoved(Moved(from, a), b);
    StepIsMoved(Moved(Moved(from, a), b), c);
    RunOne(from, a);
    RunOne(Step(from, a), b);
    RunOne(Step(Step(from, a), b), c);
    RunConcat(1, before, [a]);
    RunConcat(1, before + [a], [b]);
    RunConcat(1, before + [a] + [b], [c]);
  }

  lemma RunOne(chk: Word, v: bv8)
    ensures Run(chk, [v]) == Step(chk, v)
  {
    hide Step;
    assert [v][..0] == [];
  }

  lemma Nothing() returns (s: seq<bv8>)
    ensures s == [] && Run(1, s) == 1
  {
    s := [];
  }

  lemma EmptyOld() returns (s: seq<bv8>)
    ensures s == [3, 0, 1, 10, 28, 25, 31, 20, 31] && Run(1, s) == BECH32
  {
    s := Nothing();
    hide Run;
    s := Append(s, 0x1, 3, 0, 1, 0x8c01);
    s := Append(s, 0x8c01, 10, 28, 25, 0x3d6afc2b);
    s := Append(s, 0x3d6afc2b, 31, 20, 31, 0x1);
  }

  lemma EmptyNew() returns (s: seq<bv8>)
    ensures s == [3, 0, 1, 31, 0, 9, 19, 17, 29] && Run(1, s) == BECH32M
  {
    s := Nothing();
    hide Run;
    s := Append(s, 0x1, 3, 0, 1, 0x8c01);
    s := Append(s, 0x8c01, 31, 0, 9, 0x3d6aabbb);
    s := Append(s, 0x3d6aabbb, 19, 17, 29, 0x2bc830a3);
  }

  lemma AllFirst() returns (s: seq<bv8>)
    ensures s == [3, 3, 3, 3, 3, 3, 0, 1, 2, 3, 4, 5] && Run(1, s) == 0x266635a8
  {
    s := Nothing();
    hide Run;
    s := Append(s, 0x1, 3, 3, 3, 0x8c63);
    s := Append(s, 0x8c63, 3, 3, 3, 0x3d5bdbd1);
    s := Append(s, 0x3d5bdbd1, 0, 1, 2, 0x17456f7b);
    s := Append(s, 0x17456f7b, 3, 4, 5, 0x266635a8);
  }

  lemma AllSecond(before: seq<bv8>) returns (s: seq<bv8>)
    requires Run(1, before) == 0x266635a8
    ensures s == before + [6, 0, 1, 2, 3, 4, 5, 6, 7, 8, 9, 10] && Run(1, s) == 0x2e301b62
  {
    s := before;
    hide Run;
    s := Append(s, 0x266635a8, 6, 0, 1, 0x30018ce4);
    s := Append(s, 0x30018ce4, 2, 3, 4, 0x28db67b3);
    s := Append(s, 0x28db67b3, 5, 6, 7, 0x11e88668);
    s := Append(s, 0x11e88668, 8, 9, 10, 0x2e301b62);
  }

  lemma AllThird(before: seq<bv8>) returns (s: seq<bv8>)
    requires Run(1, before) == 0x2e301b62
    ensures s == before + [11, 12, 13, 14, 15, 16, 17, 18, 19, 20, 21, 22] && Run(1, s) == 0xc8c6efb
  {
    s := before;
    hide Run;
    s := Append(s, 0x2e301b62, 11, 12, 13, 0x212c0d6a);
    s := Append(s, 0x212c0d6a, 14, 15, 16, 0x3311a03e);
    s := Append(s, 0x3311a03e, 17, 18, 19, 0x28166541);
    s := Append(s, 0x28166541, 20, 21, 22, 0xc8c6efb);
  }

  lemma AllFourth(before: seq<bv8>) returns (s: seq<bv8>)
    requires Run(1, before) == 0xc8c6efb
    ensures s == before + [23, 24, 25, 26, 27, 28, 29, 30, 31, 27, 0, 0, 0, 6, 14] && Run(1, s) == 0x1
  {
    s := before;
    hide Run;
    s := Append(s, 0xc8c6efb, 23, 24, 25, 0x3f0597ac);
    s := Append(s, 0x3f0597ac, 26, 27, 28, 0x9853657);
    s := Append(s, 0x9853657, 29, 30, 31, 0x1a0d3656);
    s := Append(s, 0x1a0d3656, 27, 0, 0, 0x1f82a53f);
    s := Append(s, 0x1f82a53f, 0, 6, 14, 0x1);
  }

  lemma AllJoined()
    ensures [3, 3, 3, 3, 3, 3, 0, 1, 2, 3, 4, 5] + [6, 0, 1, 2, 3, 4, 5, 6, 7, 8, 9, 10]
            + [11, 12, 13, 14, 15, 16, 17, 18, 19, 20, 21, 22] + [23, 24, 25, 26, 27, 28, 29, 30, 31, 27, 0, 0, 0, 6, 14]
         == ABCDEF + COUNTED + ALL_SUFFIX
  {
  }

  lemma AllSymbols() returns (s: seq<bv8>)
    ensures s == ABCDEF + COUNTED + ALL_SUFFIX && Run(1, s) == BECH32
  {
    hide Run, ABCDEF, COUNTED, ALL_SUFFIX;
    s := AllFirst();
    s := AllSecond(s);
    s := AllThird(s);
    s := AllFourth(s);
    AllJoined();
  }

  lemma VariantMade(hrp: AsciiString, bits: seq<bv8>, suffix: seq<bv8>, constant: Word)
    requires |suffix| == 6 && Narrow(bits) && Narrow(suffix) && constant < REGISTER
    requires Run(1, HrpExpand(hrp) + bits + suffix) == constant
    ensures Create(hrp, FromBits(bits), constant) == FromBits(suffix)
  {
    hide HrpExpand, CreateChecksum;
    ChecksumUnique(hrp, bits, constant, suffix);
    ToFromBits(bits);
  }

  const ABCDEF: seq<bv8> := [3, 3, 3, 3, 3, 3, 0, 1, 2, 3, 4, 5, 6]
  const COUNTED: seq<bv8> := [0, 1, 2, 3, 4, 5, 6, 7, 8, 9, 10, 11, 12, 13, 14, 15, 16, 17, 18, 19, 20, 21, 22, 23, 24, 25, 26, 27, 28, 29, 30, 31]
  const ALL_SUFFIX: seq<bv8> := [27, 0, 0, 0, 6, 14]

  lemma ExpandA()
    ensures HrpExpand("a") == [3, 0, 1]
  {
  }

  lemma ExpandLong()
    ensures HrpExpand("abcdef") == ABCDEF
  {
  }

  lemma Spelled(hrp: AsciiString, data: seq<byte>, suffix: seq<byte>, constant: Word, text: string)
    requires hrp != "" && (forall i :: 0 <= i < |hrp| ==> IsLower(hrp[i])) && Symbols(data) && Symbols(suffix)
    requires Create(hrp, data, constant) == suffix
    requires text == hrp + "1" + Letters(ABC, data) + Letters(ABC, suffix)
    ensures Encode(hrp, data, constant) == Ok(text) && ToLower(hrp) == hrp
  {
    hide Create;
    assert Letters(ABC, data + suffix) == Letters(ABC, data) + Letters(ABC, suffix);
    assert hrp + "1" + Letters(ABC, data + suffix) == text;
  }

  // The published texts.
  const EMPTY_OLD: AsciiString := "a12uel5l"
  const EMPTY_NEW: AsciiString := "a1lqfn3a"
  const CAPITAL_OLD: AsciiString := "A12UEL5L"
  const CAPITAL_NEW: AsciiString := "A1LQFN3A"
  const ALL_LETTERS: string := "abcdef" + "1" + "qpzry9x8gf2tvdw0s3jn54khce6mua7l" + "mqqqxw"

  lemma OldSuffix()
    ensures FromBits([10, 28, 25, 31, 20, 31]) == [10, 28, 25, 31, 20, 31] && Letters(ABC, [10, 28, 25, 31, 20, 31]) == "2uel5l"
  {
  }

  lemma NewSuffix()
    ensures FromBits([31, 0, 9, 19, 17, 29]) == [31, 0, 9, 19, 17, 29] && Letters(ABC, [31, 0, 9, 19, 17, 29]) == "lqfn3a"
  {
  }

  lemma EmptyOldMade()
    ensures Encode("a", [], BECH32) == Ok(EMPTY_OLD)
  {
    hide Run, HrpExpand, Encode, Create, FromBits, Letters;
    var s := EmptyOld();
    ExpandA();
    OldSuffix();
    assert s == [3, 0, 1] + [] + [10, 28, 25, 31, 20, 31];
    VariantMade("a", [], [10, 28, 25, 31, 20, 31], BECH32);
    assert FromBits([]) == [] && Letters(ABC, []) == "";
    Spelled("a", [], [10, 28, 25, 31, 20, 31], BECH32, EMPTY_OLD);
  }

  lemma EmptyNewMade()
    ensures Encode("a", [], BECH32M) == Ok(EMPTY_NEW)
  {
    hide Run, HrpExpand, Encode, Create, FromBits, Letters;
    var s := EmptyNew();
    ExpandA();
    NewSuffix();
    assert s == [3, 0, 1] + [] + [31, 0, 9, 19, 17, 29];
    VariantMade("a", [], [31, 0, 9, 19, 17, 29], BECH32M);
    assert FromBits([]) == [] && Letters(ABC, []) == "";
    Spelled("a", [], [31, 0, 9, 19, 17, 29], BECH32M, EMPTY_NEW);
  }

  lemma Lowered()
    ensures ToLower(CAPITAL_OLD) == EMPTY_OLD && ToLower(CAPITAL_NEW) == EMPTY_NEW && ToLower("a") == "a"
    ensures !MixesCase(CAPITAL_OLD) && !MixesCase(CAPITAL_NEW)
  {
    assert ToUpper(CAPITAL_OLD) == CAPITAL_OLD && ToUpper(CAPITAL_NEW) == CAPITAL_NEW;
  }

  /** The empty payload under either variant, in capitals as it was published. */
  lemma EmptyPayload()
    ensures Decode(CAPITAL_OLD) == Ok(Decoded("a", [], BECH32)) && Decode(CAPITAL_NEW) == Ok(Decoded("a", [], BECH32M))
  {
    hide Encode, Decode, ToLower, MixesCase;
    EmptyOldMade();
    EmptyNewMade();
    Lowered();
    DecodeIff(CAPITAL_OLD, Decoded("a", [], BECH32));
    DecodeIff(CAPITAL_NEW, Decoded("a", [], BECH32M));
  }

  function Counted(n: nat): (data: seq<byte>)
    requires n <= 32
    ensures |data| == n && Symbols(data)
  {
    seq(n, i requires 0 <= i < n => i)
  }

  lemma CountedLow(i: nat)
    requires i < 16
    ensures COUNTED[i] as int == i && COUNTED[i] < 32
  {
    if i < 4 {} else if i < 8 {} else if i < 12 {} else {}
  }

  lemma CountedHigh(i: nat)
    requires 16 <= i < 32
    ensures COUNTED[i] as int == i && COUNTED[i] < 32
  {
    if i < 20 {} else if i < 24 {} else if i < 28 {} else {}
  }

  lemma CountedAt(i: nat)
    requires i < 32
    ensures COUNTED[i] as int == i && COUNTED[i] < 32
  {
    if i < 16 { CountedLow(i); } else { CountedHigh(i); }
  }

  lemma CountedBits()
    ensures Narrow(COUNTED) && FromBits(COUNTED) == Counted(32)
  {
    assert |COUNTED| == 32;
    forall i | 0 <= i < 32 ensures COUNTED[i] as int == i && COUNTED[i] < 32 { CountedAt(i); }
    hide COUNTED;
  }

  lemma CountedLetters()
    ensures Letters(ABC, Counted(32)) == CHARSET
  {
    assert ABC == CHARSET;
    forall i | 0 <= i < 32 ensures Letters(ABC, Counted(32))[i] == CHARSET[i] {
    }
  }

  lemma AllSuffix()
    ensures Narrow(ALL_SUFFIX) && FromBits(ALL_SUFFIX) == [27, 0, 0, 0, 6, 14] && Letters(ABC, [27, 0, 0, 0, 6, 14]) == "mqqqxw"
  {
  }

  /** The payload of all symbols in order spells the alphabet. */
  lemma AllPayload()
    ensures Encode("abcdef", Counted(32), BECH32) == Ok(ALL_LETTERS)
  {
    hide Run, HrpExpand, Encode, Create, FromBits, Letters, Counted, Narrow;
    var s := AllSymbols();
    ExpandLong();
    CountedBits();
    AllSuffix();
    VariantMade("abcdef", COUNTED, ALL_SUFFIX, BECH32);
    CountedLetters();
    Spelled("abcdef", Counted(32), [27, 0, 0, 0, 6, 14], BECH32, ALL_LETTERS);
  }
}
