/** The checksum half of the vendored BIP-173/BIP-350 codec, address/bech32m.go:
    the 30-bit register, how one symbol moves it, why that move loses nothing,
    and the builder and verifier on top of it. */
module Checksum {
  import opened Common

  /** The register.  Go's int is wider, but RunRange shows that 30 bits suffice. */
  type Word = bv32

  const BECH32: Word := 1
  const BECH32M: Word := 0x2bc830a3
  const REGISTER: Word := 0x40000000

  const GEN: seq<Word> := [0x3b6a57b2, 0x26508e6d, 0x1ea119fa, 0x3d4233dd, 0x2a1462b3]

  type AsciiString = s: string | forall i :: 0 <= i < |s| ==> s[i] as int < 128

  // -------------------------------------------------------------- one symbol

  function Xor(a: Word, b: Word): Word { a ^ b }

  function Tap(b: Word, i: nat): Word
    requires i < 5
  {
    if (b >> i) & 1 == 1 then GEN[i] else 0
  }

  /** The generator words picked by the low `n` bits of `b`. */
  function Feedback(b: Word, n: nat): Word
    requires n <= 5
  {
    if n == 0 then 0 else Xor(Feedback(b, n - 1), Tap(b, n - 1))
  }

  function Shift(chk: Word, v: bv8): Word { ((chk & 0x1ffffff) << 5) ^ (v as Word) }

  function Top(chk: Word): Word { chk >> 25 }

  function Step(chk: Word, v: bv8): Word { Xor(Shift(chk, v), Feedback(Top(chk), 5)) }

  /** The register after reading `vs` in state `chk`. */
  function Run(chk: Word, vs: seq<bv8>): Word
    decreases |vs|
  {
    if vs == [] then chk else Step(Run(chk, vs[..|vs| - 1]), vs[|vs| - 1])
  }

  function Polymod(values: seq<bv8>): Word { Run(1, values) }

  /** One turn of the outer loop of polymod, with its inner loop over the generators. */
  method ComputeStep(before: Word, v: bv8) returns (chk: Word)
    ensures chk == Step(before, v)
  {
    var b := before >> 25;
    chk := ((before & 0x1ffffff) << 5) ^ (v as Word);
    ghost var shifted := chk;
    XorZero(shifted);
    for i := 0 to 5
      invariant chk == Xor(shifted, Feedback(b, i))
    {
      ghost var prior := chk;
      if (b >> i) & 1 == 1 {
        chk := Xor(chk, GEN[i]);
        XorAssoc(shifted, Feedback(b, i), GEN[i]);
      } else {
        XorZero(Feedback(b, i));
      }
    }
    assert b == Top(before);
    assert shifted == Shift(before, v);
  }

  method ComputePolymod(values: seq<bv8>) returns (chk: Word)
    ensures chk == Polymod(values)
  {
    chk := 1;
    for k := 0 to |values|
      invariant chk == Run(1, values[..k])
    {
      chk := ComputeStep(chk, values[k]);
      assert values[..k + 1][..k] == values[..k];
    }
    assert values[..|values|] == values;
  }

  lemma XorZero(a: Word)
    ensures Xor(a, 0) == a
  {
  }

  // The bit-vector solver is slow at XOR under functions; naming the plain sums
  // lets it normalize each side once.
  lemma XorAssoc(x: Word, y: Word, z: Word)
    ensures Xor(Xor(x, y), z) == Xor(x, Xor(y, z))
  {
    assert Xor(Xor(x, y), z) == Xor(x ^ y, z);
    assert Xor(x, Xor(y, z)) == Xor(x, y ^ z);
  }

  lemma FeedbackUnrolled(b: Word)
    ensures Feedback(b, 5) == Xor(Xor(Xor(Xor(Xor(0, Tap(b, 0)), Tap(b, 1)), Tap(b, 2)), Tap(b, 3)), Tap(b, 4))
  {
    assert Feedback(b, 1) == Xor(0, Tap(b, 0));
    assert Feedback(b, 2) == Xor(Xor(0, Tap(b, 0)), Tap(b, 1));
    assert Feedback(b, 3) == Xor(Xor(Xor(0, Tap(b, 0)), Tap(b, 1)), Tap(b, 2));
  }

  /** Different overflow symbols leave different low symbols behind. */
  lemma FeedbackInjective(p: Word, q: Word)
    requires p < 32 && q < 32
    requires Feedback(p, 5) & 31 == Feedback(q, 5) & 31
    ensures p == q
  {
    FeedbackUnrolled(p);
    FeedbackUnrolled(q);
  }

  /** One symbol moves different registers to different registers. */
  lemma StepInjective(a: Word, b: Word, v: bv8)
    requires a < REGISTER && b < REGISTER
    requires Step(a, v) == Step(b, v)
    ensures a == b
  {
    FeedbackInjective(Top(a), Top(b));
  }

  lemma FeedbackRange(b: Word)
    ensures Feedback(b, 5) < REGISTER
  {
    FeedbackUnrolled(b);
  }

  lemma {:induction false} RunRange(chk: Word, vs: seq<bv8>)
    requires chk < REGISTER
    ensures Run(chk, vs) < REGISTER
    decreases |vs|
  {
    if vs != [] {
      var prior := Run(chk, vs[..|vs| - 1]);
      RunRange(chk, vs[..|vs| - 1]);
      FeedbackRange(Top(prior));
    }
  }

  lemma {:induction false} RunConcat(chk: Word, xs: seq<bv8>, ys: seq<bv8>)
    ensures Run(chk, xs + ys) == Run(Run(chk, xs), ys)
    decreases |ys|
  {
    if ys == [] {
      assert xs + ys == xs;
    } else {
      var zs := xs + ys;
      assert zs[..|zs| - 1] == xs + ys[..|ys| - 1];
      RunConcat(chk, xs, ys[..|ys| - 1]);
    }
  }

  /** However long the common tail, it never brings two registers together. */
  lemma {:induction false} RunInjective(a: Word, b: Word, vs: seq<bv8>)
    requires a < REGISTER && b < REGISTER
    requires Run(a, vs) == Run(b, vs)
    ensures a == b
    decreases |vs|
  {
    if vs != [] {
      var init := vs[..|vs| - 1];
      RunRange(a, init);
      RunRange(b, init);
      StepInjective(Run(a, init), Run(b, init), vs[|vs| - 1]);
      RunInjective(a, b, init);
    }
  }

  // --------------------------------------------------------- up to six symbols

  predicate Narrow(vs: seq<bv8>) { forall i :: 0 <= i < |vs| ==> vs[i] < 32 }

  /** At most `k` symbols wide. */
  predicate Fits(p: Word, k: nat)
    requires k <= 6
  {
    p < (if k == 0 then 1 else if k == 1 then 0x20 else if k == 2 then 0x400 else if k == 3 then 0x8000
         else if k == 4 then 0x100000 else if k == 5 then 0x2000000 else REGISTER)
  }

  /** Symbols laid side by side in one word, the last one lowest. */
  function Pack(vs: seq<bv8>): Word
    decreases |vs|
  {
    if vs == [] then 0 else Shift(Pack(vs[..|vs| - 1]), vs[|vs| - 1])
  }

  function Zeros(n: nat): seq<bv8> { seq(n, i => 0) }

  lemma {:induction false} PackFits(vs: seq<bv8>)
    requires |vs| <= 6 && Narrow(vs)
    ensures Fits(Pack(vs), |vs|)
    decreases |vs|
  {
    if vs == [] {
      assert Pack(vs) == 0;
    } else {
      PackFits(vs[..|vs| - 1]);
    }
  }

  lemma TopXor(a: Word, d: Word)
    requires d < 0x2000000
    ensures Top(Xor(a, d)) == Top(a)
  {
  }

  /** A difference that has not reached the top symbol is carried along unchanged. */
  lemma StepXor(a: Word, d: Word, v: bv8)
    requires d < 0x2000000
    ensures Step(Xor(a, d), v) == Xor(Step(a, 0), Shift(d, v))
  {
    TopXor(a, d);
  }

  /** Up to six symbols act on the register as one XOR. */
  lemma {:induction false} RunSix(chk: Word, vs: seq<bv8>)
    requires |vs| <= 6 && Narrow(vs)
    ensures Run(chk, vs) == Xor(Run(chk, Zeros(|vs|)), Pack(vs))
    decreases |vs|
  {
    if vs == [] {
      XorZero(chk);
      assert Pack(vs) == 0;
    } else {
      var init := vs[..|vs| - 1];
      RunSix(chk, init);
      PackFits(init);
      StepXor(Run(chk, Zeros(|init|)), Pack(init), vs[|vs| - 1]);
      assert Zeros(|vs|)[..|init|] == Zeros(|init|);
    }
  }

  /** The top `k` of the register's six symbols. */
  function TopSymbols(p: Word, k: nat): Word
    requires k <= 6
  {
    if k == 0 then p >> 30 else if k == 1 then p >> 25 else if k == 2 then p >> 20 else if k == 3 then p >> 15
    else if k == 4 then p >> 10 else if k == 5 then p >> 5 else p
  }

  function LastSymbol(p: Word): (v: bv8)
    ensures v < 32
  {
    (p & 31) as bv8
  }

  /** The six symbols of a register, the most significant first. */
  function Unpack(p: Word): (vs: seq<bv8>)
    ensures |vs| == 6 && Narrow(vs)
  {
    seq(6, i requires 0 <= i < 6 => LastSymbol(TopSymbols(p, i + 1)))
  }

  function DropSymbol(p: Word): Word { p >> 5 }

  lemma DropTop(p: Word, k: nat)
    requires k < 6
    ensures DropSymbol(TopSymbols(p, k + 1)) == TopSymbols(p, k)
  {
    match k
    case 0 => assert DropSymbol(p >> 25) == p >> 30;
    case 1 => assert DropSymbol(p >> 20) == p >> 25;
    case 2 => assert DropSymbol(p >> 15) == p >> 20;
    case 3 => assert DropSymbol(p >> 10) == p >> 15;
    case 4 => assert DropSymbol(p >> 5) == p >> 10;
    case 5 => assert DropSymbol(p) == p >> 5;
  }

  lemma TopDrop(p: Word, k: nat)
    requires k < 6
    ensures TopSymbols(DropSymbol(p), k + 1) == TopSymbols(p, k)
  {
    match k
    case 0 => assert TopSymbols(p >> 5, 1) == p >> 30;
    case 1 => assert TopSymbols(p >> 5, 2) == p >> 25;
    case 2 => assert TopSymbols(p >> 5, 3) == p >> 20;
    case 3 => assert TopSymbols(p >> 5, 4) == p >> 15;
    case 4 => assert TopSymbols(p >> 5, 5) == p >> 10;
    case 5 => assert TopSymbols(p >> 5, 6) == p >> 5;
  }

  lemma DropShift(p: Word, v: bv8)
    requires p < 0x2000000 && v < 32
    ensures DropSymbol(Shift(p, v)) == p
  {
  }

  lemma LastSymbolOfShift(p: Word, v: bv8)
    requires v < 32
    ensures LastSymbol(Shift(p, v)) == v
  {
  }

  lemma {:induction false} SymbolOfPack(vs: seq<bv8>, i: nat)
    requires i < |vs| <= 6 && Narrow(vs)
    ensures LastSymbol(TopSymbols(Pack(vs), 6 - |vs| + i + 1)) == vs[i]
    decreases |vs|
  {
    var init := vs[..|vs| - 1];
    if i == |init| {
      LastSymbolOfShift(Pack(init), vs[i]);
    } else {
      PackFits(init);
      DropShift(Pack(init), vs[|vs| - 1]);
      TopDrop(Pack(vs), 6 - |vs| + i + 1);
      SymbolOfPack(init, i);
    }
  }

  lemma PackInjective(a: seq<bv8>, b: seq<bv8>)
    requires |a| == |b| <= 6 && Narrow(a) && Narrow(b) && Pack(a) == Pack(b)
    ensures a == b
  {
    forall i | 0 <= i < |a| ensures a[i] == b[i] {
      SymbolOfPack(a, i);
      SymbolOfPack(b, i);
    }
  }

  lemma UnpackPack(vs: seq<bv8>)
    requires |vs| == 6 && Narrow(vs)
    ensures Unpack(Pack(vs)) == vs
  {
    forall i | 0 <= i < 6
      ensures LastSymbol(TopSymbols(Pack(vs), i + 1)) == vs[i]
    {
      SymbolOfPack(vs, i);
    }
  }

  lemma TopSymbolsRange(p: Word, k: nat)
    requires k <= 6 && p < REGISTER
    ensures TopSymbols(p, k) < REGISTER
  {
  }

  lemma {:induction false} PackTop(p: Word, k: nat)
    requires p < REGISTER && k <= 6
    ensures Pack(Unpack(p)[..k]) == TopSymbols(p, k)
  {
    if k > 0 {
      PackTop(p, k - 1);
      DropTop(p, k - 1);
      TopSymbolsRange(p, k);
      assert Unpack(p)[..k][..k - 1] == Unpack(p)[..k - 1];
    }
  }

  lemma PackUnpack(p: Word)
    requires p < REGISTER
    ensures Pack(Unpack(p)) == p
  {
    PackTop(p, 6);
    assert Unpack(p)[..6] == Unpack(p);
  }

  // ------------------------------------------------- building and verifying

  function CharHigh(c: char): bv8
    requires c as int < 128
  {
    (c as int as bv8) >> 5
  }

  function CharLow(c: char): bv8
    requires c as int < 128
  {
    (c as int as bv8) & 31
  }

  function HrpExpand(hrp: AsciiString): seq<bv8> {
    seq(|hrp|, i requires 0 <= i < |hrp| => CharHigh(hrp[i])) + [0] +
    seq(|hrp|, i requires 0 <= i < |hrp| => CharLow(hrp[i]))
  }

  method ExpandHrp(hrp: AsciiString) returns (ret: seq<bv8>)
    ensures ret == HrpExpand(hrp)
  {
    ret := [];
    for k := 0 to |hrp|
      invariant ret == seq(k, i requires 0 <= i < k => CharHigh(hrp[i]))
    {
      ret := ret + [(hrp[k] as int as bv8) >> 5];
    }
    ret := ret + [0];
    ghost var highs := ret;
    for k := 0 to |hrp|
      invariant ret == highs + seq(k, i requires 0 <= i < k => CharLow(hrp[i]))
    {
      ret := ret + [(hrp[k] as int as bv8) & 31];
    }
  }

  /** BECH32 or BECH32M when the data, checksum included, matches that constant, else 0. */
  function VerifyChecksum(hrp: AsciiString, data: seq<bv8>): Word {
    var pm := Polymod(HrpExpand(hrp) + data);
    if pm == BECH32 then BECH32 else if pm == BECH32M then BECH32M else 0
  }

  method CheckChecksum(hrp: AsciiString, data: seq<byte>) returns (constant: Word)
    ensures constant == Verify(hrp, data)
  {
    var values := ExpandHrp(hrp);
    values := values + ToBits(data);
    var pm := ComputePolymod(values);
    constant := if pm == BECH32 then BECH32 else if pm == BECH32M then BECH32M else 0;
  }

  function CreateChecksum(hrp: AsciiString, data: seq<bv8>, constant: Word): (suffix: seq<bv8>)
    ensures |suffix| == 6 && Narrow(suffix)
  {
    Unpack(Xor(Polymod(HrpExpand(hrp) + data + Zeros(6)), constant))
  }

  function ShiftRight(p: Word, n: nat): Word
    requires n <= 30
  {
    p >> n
  }

  lemma ShiftRightIsTop(p: Word, i: nat)
    requires i < 6
    ensures ShiftRight(p, 5 * (5 - i)) == TopSymbols(p, i + 1)
  {
    match i
    case 0 => assert ShiftRight(p, 25) == p >> 25;
    case 1 => assert ShiftRight(p, 20) == p >> 20;
    case 2 => assert ShiftRight(p, 15) == p >> 15;
    case 3 => assert ShiftRight(p, 10) == p >> 10;
    case 4 => assert ShiftRight(p, 5) == p >> 5;
    case 5 => assert ShiftRight(p, 0) == p;
  }

  method BuildChecksum(hrp: AsciiString, data: seq<byte>, constant: Word) returns (ret: seq<byte>)
    ensures ret == Create(hrp, data, constant)
  {
    var bits := BuildBits(hrp, ToBits(data), constant);
    ret := FromBits(bits);
  }

  method BuildBits(hrp: AsciiString, data: seq<bv8>, constant: Word) returns (ret: seq<bv8>)
    ensures ret == CreateChecksum(hrp, data, constant)
  {
    var values := ExpandHrp(hrp);
    values := values + data;
    values := values + [0, 0, 0, 0, 0, 0];
    assert values == HrpExpand(hrp) + data + Zeros(6);
    var pm := ComputePolymod(values);
    pm := Xor(pm, constant);
    ret := [];
    for i := 0 to 6
      invariant ret == Unpack(pm)[..i]
    {
      ShiftRightIsTop(pm, i);
      ret := ret + [LastSymbol(ShiftRight(pm, 5 * (5 - i)))];
    }
  }

  // ---------------------------------------------------------------- theorems

  lemma XorCancel(x: Word, y: Word, c: Word)
    ensures Xor(x, y) == c <==> y == Xor(x, c)
  {
    assert Xor(x, Xor(x, y)) == y by { XorAssoc(x, x, y); assert Xor(x, x) == 0; assert Xor(0, y) == y; }
    assert Xor(x, Xor(x, c)) == c by { XorAssoc(x, x, c); assert Xor(x, x) == 0; assert Xor(0, c) == c; }
  }

  /** Whatever the payload, exactly one suffix of six symbols reaches a given
      constant, and it is the one the builder computes. */
  lemma ChecksumUnique(hrp: AsciiString, data: seq<bv8>, constant: Word, suffix: seq<bv8>)
    requires constant < REGISTER
    requires |suffix| == 6 && Narrow(suffix)
    ensures Polymod(HrpExpand(hrp) + data + suffix) == constant <==> suffix == CreateChecksum(hrp, data, constant)
  {
    var values := HrpExpand(hrp) + data;
    var base := Run(1, values + Zeros(6));
    RunConcat(1, values, suffix);
    RunConcat(1, values, Zeros(6));
    RunSix(Run(1, values), suffix);
    XorCancel(base, Pack(suffix), constant);
    RunRange(1, values + Zeros(6));
    UnpackPack(suffix);
    PackUnpack(Xor(base, constant));
  }

  /** No payload has the same checksum under both variants. */
  lemma VariantsDiffer(hrp: AsciiString, data: seq<bv8>)
    ensures CreateChecksum(hrp, data, BECH32) != CreateChecksum(hrp, data, BECH32M)
  {
    var suffix := CreateChecksum(hrp, data, BECH32);
    ChecksumUnique(hrp, data, BECH32, suffix);
    ChecksumUnique(hrp, data, BECH32M, suffix);
  }

  /** Up to six symbols can be read back from the register they lead to. */
  lemma SixInjective(chk: Word, a: seq<bv8>, b: seq<bv8>)
    requires |a| == |b| <= 6 && Narrow(a) && Narrow(b)
    requires Run(chk, a) == Run(chk, b)
    ensures a == b
  {
    hide Run, Pack;
    var base := Run(chk, Zeros(|a|));
    RunSix(chk, a);
    RunSix(chk, b);
    XorCancel(base, Pack(a), Run(chk, a));
    XorCancel(base, Pack(b), Run(chk, a));
    PackInjective(a, b);
  }

  /** Equal outside the six positions that start at `lo`. */
  predicate DifferWithin<T(==)>(x: seq<T>, y: seq<T>, lo: nat) {
    |x| == |y| && forall i :: 0 <= i < |x| && !(lo <= i < lo + 6) ==> x[i] == y[i]
  }

  function AtMost(n: nat, limit: nat): nat { if n <= limit then n else limit }

  lemma RunSplit(head: seq<bv8>, x: seq<bv8>, lo: nat, hi: nat)
    requires lo <= hi <= |x|
    ensures Run(1, head + x) == Run(Run(Run(1, head + x[..lo]), x[lo..hi]), x[hi..])
  {
    assert head + x == head + x[..lo] + x[lo..hi] + x[hi..];
    RunConcat(1, head + x[..lo] + x[lo..hi], x[hi..]);
    RunConcat(1, head + x[..lo], x[lo..hi]);
  }

  lemma BurstSplit<T>(x: seq<T>, y: seq<T>, lo: nat)
    requires DifferWithin(x, y, lo) && x != y
    ensures var from, to := AtMost(lo, |x|), AtMost(lo + 6, |x|);
            x[..from] == y[..from] && x[to..] == y[to..] && x[from..to] != y[from..to]
  {
    var from, to := AtMost(lo, |x|), AtMost(lo + 6, |x|);
    assert x == x[..from] + x[from..to] + x[to..] && y == y[..from] + y[from..to] + y[to..];
  }

  /** A burst of up to six altered symbols, in a text of any length, always changes the register. */
  lemma BurstChangesPolymod(hrp: AsciiString, x: seq<bv8>, y: seq<bv8>, lo: nat)
    requires Narrow(x) && Narrow(y)
    requires DifferWithin(x, y, lo) && x != y
    ensures Polymod(HrpExpand(hrp) + x) != Polymod(HrpExpand(hrp) + y)
  {
    hide Run, HrpExpand;
    var head := HrpExpand(hrp);
    var from, to := AtMost(lo, |x|), AtMost(lo + 6, |x|);
    BurstSplit(x, y, lo);
    RunSplit(head, x, from, to);
    RunSplit(head, y, from, to);
    RunRange(1, head + x[..from]);
    hide Narrow, DifferWithin;
    BurstChangesRun(Run(1, head + x[..from]), x[from..to], y[from..to], x[to..]);
  }

  lemma BurstChangesRun(chk: Word, a: seq<bv8>, b: seq<bv8>, tail: seq<bv8>)
    requires chk < REGISTER
    requires |a| == |b| <= 6 && Narrow(a) && Narrow(b) && a != b
    ensures Run(Run(chk, a), tail) != Run(Run(chk, b), tail)
  {
    RunRange(chk, a);
    RunRange(chk, b);
    if Run(Run(chk, a), tail) == Run(Run(chk, b), tail) {
      RunInjective(Run(chk, a), Run(chk, b), tail);
      SixInjective(chk, a, b);
      assert false;
    }
  }

  // ------------------------------------------- the same on the codec's own bytes

  predicate Symbols(data: seq<byte>) { forall i :: 0 <= i < |data| ==> data[i] < 32 }

  function ToBits(data: seq<byte>): (vs: seq<bv8>)
    ensures |vs| == |data|
  {
    seq(|data|, i requires 0 <= i < |data| => data[i] as bv8)
  }

  function FromBits(vs: seq<bv8>): (data: seq<byte>)
    ensures |data| == |vs|
  {
    seq(|vs|, i requires 0 <= i < |vs| => vs[i] as int)
  }

  lemma ByteBits(x: byte)
    ensures (x as bv8) as int == x
    ensures x as bv8 < 32 <==> x < 32
  {
    var v := SomeBits(x);
  }

  /** Counting up to `x` finds the bits that stand for it. */
  lemma {:induction false} SomeBits(x: byte) returns (v: bv8)
    ensures v as int == x && x as bv8 == v
  {
    if x == 0 {
      v := 0;
    } else {
      var w := SomeBits(x - 1);
      v := w + 1;
    }
  }

  lemma ToBitsNarrow(data: seq<byte>)
    requires Symbols(data)
    ensures Narrow(ToBits(data))
  {
    forall i | 0 <= i < |data| ensures ToBits(data)[i] < 32 { ByteBits(data[i]); }
  }

  lemma FromToBits(data: seq<byte>)
    ensures FromBits(ToBits(data)) == data
  {
    forall i | 0 <= i < |data| ensures FromBits(ToBits(data))[i] == data[i] { ByteBits(data[i]); }
  }

  lemma ToFromBits(vs: seq<bv8>)
    ensures ToBits(FromBits(vs)) == vs
  {
    forall i | 0 <= i < |vs| ensures ToBits(FromBits(vs))[i] == vs[i] { }
  }

  function Verify(hrp: AsciiString, data: seq<byte>): Word { VerifyChecksum(hrp, ToBits(data)) }

  function Create(hrp: AsciiString, data: seq<byte>, constant: Word): (suffix: seq<byte>)
    ensures |suffix| == 6 && Symbols(suffix)
  {
    var suffix := CreateChecksum(hrp, ToBits(data), constant);
    FromBits(suffix)
  }

  lemma ToBitsConcat(x: seq<byte>, y: seq<byte>)
    ensures ToBits(x + y) == ToBits(x) + ToBits(y)
  {
  }

  /** The verifier accepts a suffix for a variant exactly when the builder made it for that variant. */
  lemma VerifyIffCreated(hrp: AsciiString, data: seq<byte>, constant: Word, suffix: seq<byte>)
    requires constant == BECH32 || constant == BECH32M
    requires |suffix| == 6 && Symbols(suffix)
    ensures Verify(hrp, data + suffix) == constant <==> suffix == Create(hrp, data, constant)
  {
    hide HrpExpand, Polymod, CreateChecksum, Narrow, Symbols;
    var bits := ToBits(suffix);
    ToBitsNarrow(suffix);
    ChecksumUnique(hrp, ToBits(data), constant, bits);
    ToBitsConcat(data, suffix);
    assert HrpExpand(hrp) + (ToBits(data) + bits) == HrpExpand(hrp) + ToBits(data) + bits;
    FromToBits(suffix);
    ToFromBits(CreateChecksum(hrp, ToBits(data), constant));
    hide ToBits, FromBits;
  }

  /** A suffix built for any other constant is not accepted at all. */
  lemma OtherConstantRejected(hrp: AsciiString, data: seq<byte>, constant: Word)
    requires constant < REGISTER && constant != BECH32 && constant != BECH32M
    ensures Verify(hrp, data + Create(hrp, data, constant)) == 0
  {
    var bits := CreateChecksum(hrp, ToBits(data), constant);
    ChecksumUnique(hrp, ToBits(data), constant, bits);
    ToFromBits(bits);
    ToBitsConcat(data, FromBits(bits));
    hide HrpExpand, Polymod, CreateChecksum, Narrow, ToBits, FromBits;
    assert HrpExpand(hrp) + (ToBits(data) + bits) == HrpExpand(hrp) + ToBits(data) + bits;
  }

  /** A burst of up to six altered symbols is never accepted under the same variant. */
  lemma BurstNotVerified(hrp: AsciiString, x: seq<byte>, y: seq<byte>, lo: nat)
    requires Symbols(x) && Symbols(y)
    requires DifferWithin(x, y, lo) && x != y
    requires Verify(hrp, x) != 0
    ensures Verify(hrp, x) != Verify(hrp, y)
  {
    ToBitsNarrow(x);
    ToBitsNarrow(y);
    FromToBits(x);
    FromToBits(y);
    BurstChangesPolymod(hrp, ToBits(x), ToBits(y), lo);
  }
}
