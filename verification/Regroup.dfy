/** Regrouping between bytes and 5-bit symbols, as section "Segwit address format"
    of BIP-173 defines it, on sequences of bits. */
module Regroup {
  import opened Common

  function Pow2(w: nat): (p: nat)
    ensures p > 0
  {
    if w == 0 then 1 else 2 * Pow2(w - 1)
  }

  /** The low `w` bits of `x`, most significant first. */
  function BitsOf(x: nat, w: nat): (bits: seq<bool>)
    ensures |bits| == w
  {
    if w == 0 then [] else BitsOf(x / 2, w - 1) + [x % 2 == 1]
  }

  function ValueOf(bits: seq<bool>): (x: nat)
    ensures x < Pow2(|bits|)
  {
    if bits == [] then 0
    else 2 * ValueOf(bits[..|bits| - 1]) + (if bits[|bits| - 1] then 1 else 0)
  }

  lemma {:induction false} ValueOfBits(x: nat, w: nat)
    requires x < Pow2(w)
    ensures ValueOf(BitsOf(x, w)) == x
  {
    if w > 0 {
      ValueOfBits(x / 2, w - 1);
      assert BitsOf(x, w)[..w - 1] == BitsOf(x / 2, w - 1);
    }
  }

  lemma {:induction false} BitsOfValue(bits: seq<bool>)
    ensures BitsOf(ValueOf(bits), |bits|) == bits
  {
    if bits != [] {
      BitsOfValue(bits[..|bits| - 1]);
    }
  }

  function Flatten(data: seq<byte>, w: nat): (bits: seq<bool>)
    ensures |bits| == w * |data|
  {
    if data == [] then [] else BitsOf(data[0], w) + Flatten(data[1..], w)
  }

  /** Cuts into groups of `w` bits; a shorter rest is dropped. */
  function Cut(bits: seq<bool>, w: nat): (data: seq<byte>)
    requires 1 <= w <= 8
    ensures forall i :: 0 <= i < |data| ==> data[i] < Pow2(w)
  {
    if |bits| < w then []
    else
      PowByte(w);
      [ValueOf(bits[..w])] + Cut(bits[w..], w)
  }

  lemma PowByte(w: nat)
    requires w <= 8
    ensures Pow2(w) <= 256
  {
    assert Pow2(8) == 256 by { assert Pow2(4) == 16; }
    if w < 8 { PowMonotone(w, 8); }
  }

  lemma {:induction false} PowMonotone(v: nat, w: nat)
    requires v <= w
    ensures Pow2(v) <= Pow2(w)
    decreases w - v
  {
    if v < w { PowMonotone(v + 1, w); }
  }

  lemma CutOne(head: seq<bool>, tail: seq<bool>, w: nat)
    requires 1 <= w <= 8 && |head| == w
    ensures Cut(head + tail, w) == [ValueOf(head)] + Cut(tail, w)
  {
    hide ValueOf, Pow2;
    assert (head + tail)[..w] == head && (head + tail)[w..] == tail;
  }

  lemma {:induction false} CutFlatten(data: seq<byte>, w: nat, rest: seq<bool>)
    requires 1 <= w <= 8 && |rest| < w
    requires forall i :: 0 <= i < |data| ==> data[i] < Pow2(w)
    ensures Cut(Flatten(data, w) + rest, w) == data
  {
    hide Pow2, BitsOf, ValueOf;
    if data == [] {
      assert Flatten(data, w) + rest == rest;
    } else {
      ValueOfBits(data[0], w);
      CutFlatten(data[1..], w, rest);
      CutOne(BitsOf(data[0], w), Flatten(data[1..], w) + rest, w);
      hide Cut;
      assert Flatten(data, w) + rest == BitsOf(data[0], w) + (Flatten(data[1..], w) + rest);
      assert data == [data[0]] + data[1..];
    }
  }

  lemma {:induction false} FlattenCut(bits: seq<bool>, w: nat, rest: seq<bool>, n: nat)
    requires 1 <= w <= 8 && |bits| == n * w && |rest| < w
    ensures |Cut(bits + rest, w)| == n && Flatten(Cut(bits + rest, w), w) == bits
    decreases n
  {
    hide Pow2, BitsOf, ValueOf;
    if n == 0 {
      assert bits + rest == rest;
    } else {
      assert |bits| == (n - 1) * w + w >= w;
      BitsOfValue(bits[..w]);
      FlattenCut(bits[w..], w, rest, n - 1);
      CutOne(bits[..w], bits[w..] + rest, w);
      PowByte(w);
      hide Cut;
      assert bits + rest == bits[..w] + (bits[w..] + rest);
      assert bits == bits[..w] + bits[w..];
      FlattenOne(ValueOf(bits[..w]), Cut(bits[w..] + rest, w), w);
    }
  }

  lemma FlattenOne(x: byte, tail: seq<byte>, w: nat)
    ensures Flatten([x] + tail, w) == BitsOf(x, w) + Flatten(tail, w)
  {
    hide BitsOf;
    assert ([x] + tail)[1..] == tail;
  }

  function Falses(n: nat): seq<bool> { seq(n, i => false) }

  /** Zero bits that fill 8n bits up to a whole number of symbols. */
  function Pad(n: nat): nat { 4 - (8 * n + 4) % 5 }

  lemma PadUnique(n: nat, m: nat)
    ensures 8 * n + Pad(n) == 5 * ((8 * n + 4) / 5)
    ensures 0 <= 5 * m - 8 * n <= 4 ==> Pad(n) == 5 * m - 8 * n
  {
  }

  lemma PowFiveEight()
    ensures Pow2(5) == 32 && Pow2(8) == 256
  {
    assert Pow2(4) == 16;
  }

  /** ConvertBits(data, 8, 5, true). */
  function ToFive(data: seq<byte>): (symbols: seq<byte>) {
    Cut(Flatten(data, 8) + Falses(Pad(|data|)), 5)
  }

  /** ConvertBits(symbols, 5, 8, false): at most four left-over bits, all zero. */
  function ToEight(symbols: seq<byte>): Option<seq<byte>> {
    var bits := Flatten(symbols, 5);
    var whole := |bits| / 8 * 8;
    if |bits| - whole > 4 || bits[whole..] != Falses(|bits| - whole) then None else Some(Cut(bits, 8))
  }

  lemma ToFiveSymbols(data: seq<byte>)
    ensures forall i :: 0 <= i < |ToFive(data)| ==> ToFive(data)[i] < 32
    ensures |ToFive(data)| == (8 * |data| + 4) / 5
  {
    PowFiveEight();
    var bits := Flatten(data, 8) + Falses(Pad(|data|));
    PadUnique(|data|, 0);
    FlattenCut(bits, 5, [], (8 * |data| + 4) / 5);
    assert bits + [] == bits;
  }

  lemma ToEightOf(symbols: seq<byte>, head: seq<bool>, pad: nat, data: seq<byte>)
    requires Flatten(symbols, 5) == head + Falses(pad) && |head| == 8 * |data| && pad <= 4 && |head + Falses(pad)| == 8 * |data| + pad
    requires Cut(head + Falses(pad), 8) == data
    ensures ToEight(symbols) == Some(data)
  {
    hide Flatten, Cut;
    var bits := head + Falses(pad);
    WholeBytes(|data|, pad);
    assert bits[|head|..] == Falses(pad);
  }

  lemma WholeBytes(n: nat, pad: nat)
    requires pad <= 4
    ensures (8 * n + pad) / 8 * 8 == 8 * n
  {
  }

  /** Bytes survive the trip through padded symbols. */
  lemma EightOfFive(data: seq<byte>)
    ensures ToEight(ToFive(data)) == Some(data)
  {
    hide Flatten, Cut, ToEight;
    PowFiveEight();
    var head, pad := Flatten(data, 8), Pad(|data|);
    PadUnique(|data|, 0);
    FlattenCut(head + Falses(pad), 5, [], (8 * |data| + 4) / 5);
    assert head + Falses(pad) + [] == head + Falses(pad);
    CutFlatten(data, 8, Falses(pad));
    ToEightOf(ToFive(data), head, pad, data);
  }

  /** Symbols that regroup at all are the padded form of what they regroup to. */
  lemma FiveOfEight(symbols: seq<byte>)
    requires forall i :: 0 <= i < |symbols| ==> symbols[i] < 32
    requires ToEight(symbols).Some?
    ensures ToFive(ToEight(symbols).value) == symbols
  {
    PowFiveEight();
    var bits := Flatten(symbols, 5);
    var n := |bits| / 8;
    var head, rest := bits[..8 * n], bits[8 * n..];
    assert bits == head + rest;
    FlattenCut(head, 8, rest, n);
    PadUnique(n, |symbols|);
    assert rest == Falses(Pad(n));
    CutFlatten(symbols, 5, []);
    assert bits + [] == bits;
  }

  // ----------------------------------------------------------------- as a number

  /** The digits `ds`, most significant first. */
  function Number(ds: seq<byte>, base: nat): nat {
    if ds == [] then 0 else Number(ds[..|ds| - 1], base) * base + ds[|ds| - 1]
  }

  lemma ValueLast(bits: seq<bool>, bit: bool)
    ensures ValueOf(bits + [bit]) == 2 * ValueOf(bits) + (if bit then 1 else 0)
  {
    assert (bits + [bit])[..|bits|] == bits;
  }

  lemma {:induction false} ValueConcat(a: seq<bool>, b: seq<bool>)
    ensures ValueOf(a + b) == ValueOf(a) * Pow2(|b|) + ValueOf(b)
    decreases |b|
  {
    if b == [] {
      assert a + b == a;
      NoBits();
    } else {
      var init, bit := b[..|b| - 1], b[|b| - 1];
      assert b == init + [bit] && a + b == (a + init) + [bit];
      assert Pow2(|b|) == 2 * Pow2(|init|);
      hide ValueOf, Pow2;
      ValueConcat(a, init);
      ValueLast(a + init, bit);
      ValueLast(init, bit);
      Doubled(ValueOf(a), Pow2(|init|));
    }
  }

  lemma Doubled(x: nat, p: nat)
    ensures 2 * (x * p) == x * (2 * p)
  {
  }

  lemma {:induction false} FlattenLast(data: seq<byte>, x: byte, w: nat)
    ensures Flatten(data + [x], w) == Flatten(data, w) + BitsOf(x, w)
  {
    hide BitsOf;
    if data == [] {
      assert (data + [x])[1..] == [];
    } else {
      assert (data + [x])[1..] == data[1..] + [x];
      FlattenLast(data[1..], x, w);
    }
  }

  lemma {:induction false} FlattenNumber(data: seq<byte>, w: nat)
    requires forall i :: 0 <= i < |data| ==> data[i] < Pow2(w)
    ensures ValueOf(Flatten(data, w)) == Number(data, Pow2(w))
    decreases |data|
  {
    hide Pow2, BitsOf, ValueOf;
    if data == [] {
      assert ValueOf([]) == 0 by { NoBits(); }
    } else {
      var init, x := data[..|data| - 1], data[|data| - 1];
      assert data == init + [x];
      hide Flatten;
      FlattenNumber(init, w);
      FlattenLast(init, x, w);
      ValueConcat(Flatten(init, w), BitsOf(x, w));
      ValueOfBits(x, w);
    }
  }

  lemma NoBits()
    ensures ValueOf([]) == 0
  {
  }

  lemma {:induction false} ZeroBits(n: nat)
    ensures ValueOf(Falses(n)) == 0
  {
    if n > 0 {
      assert Falses(n)[..n - 1] == Falses(n - 1);
      ZeroBits(n - 1);
    }
  }

  /** Regrouping keeps the number that the bytes write in base 256, followed by the zero
      bits that fill up the last symbol. */
  lemma FiveKeepsNumber(data: seq<byte>)
    ensures |ToFive(data)| == (8 * |data| + 4) / 5 && forall i :: 0 <= i < |ToFive(data)| ==> ToFive(data)[i] < 32
    ensures Number(ToFive(data), 32) == Number(data, 256) * Pow2(5 * |ToFive(data)| - 8 * |data|)
  {
    hide Flatten, Cut, ValueOf;
    PowFiveEight();
    ToFiveSymbols(data);
    PadUnique(|data|, 0);
    var bits, pad := Flatten(data, 8), Pad(|data|);
    FlattenCut(bits + Falses(pad), 5, [], (8 * |data| + 4) / 5);
    assert bits + Falses(pad) + [] == bits + Falses(pad);
    FlattenNumber(ToFive(data), 5);
    FlattenNumber(data, 8);
    ValueConcat(bits, Falses(pad));
    ZeroBits(pad);
  }
}
