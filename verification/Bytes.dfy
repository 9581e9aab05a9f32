/** Little-endian integers, Bitcoin compact sizes and hexadecimal text, with the
    facts that let a byte string be read back in only one way. */
module Bytes {
  import opened Common

  // ------------------------------------------------------------ little-endian

  function Pow256(n: nat): (p: nat)
    ensures p > 0
  {
    if n == 0 then 1 else 256 * Pow256(n - 1)
  }

  /** The low `n` bytes of `v`, least significant first. */
  function LE(v: nat, n: nat): (bs: seq<byte>)
    ensures |bs| == n
  {
    if n == 0 then [] else [v % 256] + LE(v / 256, n - 1)
  }

  function FromLE(bs: seq<byte>): (v: nat)
    ensures v < Pow256(|bs|)
  {
    if bs == [] then 0 else bs[0] + 256 * FromLE(bs[1..])
  }

  lemma {:induction false} FromLEOfLE(v: nat, n: nat)
    requires v < Pow256(n)
    ensures FromLE(LE(v, n)) == v
  {
    if n > 0 {
      FromLEOfLE(v / 256, n - 1);
      assert LE(v, n)[1..] == LE(v / 256, n - 1);
    }
  }

  lemma {:induction false} LEOfFromLE(bs: seq<byte>)
    ensures LE(FromLE(bs), |bs|) == bs
  {
    if bs != [] {
      LEOfFromLE(bs[1..]);
      var v, tail := FromLE(bs), FromLE(bs[1..]);
      assert v == bs[0] + 256 * tail && v % 256 == bs[0] && v / 256 == tail;
      hide FromLE;
      assert LE(v, |bs|) == [bs[0]] + bs[1..];
    }
  }

  lemma LEStep(v: nat, n: nat)
    ensures LE(v, n + 1) == [v % 256] + LE(v / 256, n)
  {
  }

  /** Least significant byte first. */
  lemma LittleEndian()
    ensures LE(0x0403_0201, 4) == [1, 2, 3, 4]
  {
    assert LE(0, 0) == [];
    hide LE;
    LEStep(0x04, 0);
    LEStep(0x0403, 1);
    LEStep(0x04_0302, 2);
    LEStep(0x0403_0201, 3);
  }

  lemma Widths()
    ensures Pow256(1) == 0x100 && Pow256(2) == 0x1_0000 && Pow256(4) == TWO_32 && Pow256(8) == TWO_64
  {
    assert Pow256(3) == 0x100_0000 && Pow256(5) == 256 * TWO_32 && Pow256(6) == 0x1_0000 * TWO_32;
  }

  lemma LEInjective(v: nat, w: nat, n: nat)
    requires v < Pow256(n) && w < Pow256(n) && LE(v, n) == LE(w, n)
    ensures v == w
  {
    FromLEOfLE(v, n);
    FromLEOfLE(w, n);
  }

  /** uint32(v) of an int32: two's complement. */
  function U32(v: int32): (u: uint32) { v % TWO_32 }

  /** uint64(v) of an int64: two's complement. */
  function U64(v: int64): (u: uint64) { v % TWO_64 }

  // ------------------------------------------------------------ compact sizes

  /** writeCompact and writeCompactSize: the shortest form. */
  function Compact(n: uint64): (bs: seq<byte>)
    ensures |bs| == CompactLen(n)
  {
    if n < 0xfd then [n]
    else if n <= 0xffff then [0xfd] + LE(n, 2)
    else if n <= 0xffff_ffff then [0xfe] + LE(n, 4)
    else [0xff] + LE(n, 8)
  }

  /** compactSizeLen. */
  function CompactLen(n: uint64): int {
    if n < 0xfd then 1 else if n <= 0xffff then 3 else if n <= 0xffff_ffff then 5 else 9
  }

  /** The parser's readCompact on the unread bytes: a value of any of the four
      forms, minimal or not, and the bytes after it. */
  function ReadCompact(bs: seq<byte>): (r: Option<(nat, seq<byte>)>)
    ensures r.Some? ==> |r.value.1| < |bs|
  {
    if bs == [] then None
    else
      var width := FormWidth(bs[0]);
      if |bs| - 1 < width then None
      else
        Some((if width == 0 then bs[0] else FromLE(bs[1..1 + width]), bs[1 + width..]))
  }

  /** How many bytes follow a prefix byte. */
  function FormWidth(prefix: byte): (n: nat)
    ensures n in {0, 2, 4, 8}
  {
    if prefix == 0xfd then 2 else if prefix == 0xfe then 4 else if prefix == 0xff then 8 else 0
  }

  lemma ReadCompactOfCompact(n: uint64, rest: seq<byte>)
    ensures ReadCompact(Compact(n) + rest) == Some((n, rest))
  {
    Widths();
    var bs := Compact(n) + rest;
    var width := FormWidth(bs[0]);
    if width > 0 {
      FromLEOfLE(n, width);
      assert bs[1..1 + width] == LE(n, width);
    }
    assert bs[1 + width..] == rest;
  }

  lemma CompactPrefixFree(n: uint64, m: uint64, x: seq<byte>, y: seq<byte>)
    requires Compact(n) + x == Compact(m) + y
    ensures n == m && x == y
  {
    ReadCompactOfCompact(n, x);
    ReadCompactOfCompact(m, y);
  }

  // ------------------------------------------------------------ concatenation

  lemma Assoc<T>(a: seq<T>, b: seq<T>, c: seq<T>)
    ensures (a + b) + c == a + (b + c)
  {
  }

  /** Two concatenations cut at the same place. */
  lemma SameCut<T>(a: seq<T>, b: seq<T>, x: seq<T>, y: seq<T>)
    requires |a| == |b| && a + x == b + y
    ensures a == b && x == y
  {
    assert a == (a + x)[..|a|] && b == (b + y)[..|a|];
    assert x == (a + x)[|a|..] && y == (b + y)[|a|..];
  }

  /** The encodings of `xs` one after the other. */
  function Flat<T>(f: T -> seq<byte>, xs: seq<T>): seq<byte> {
    if xs == [] then [] else f(xs[0]) + Flat(f, xs[1..])
  }

  lemma {:induction false} FlatAppend<T>(f: T -> seq<byte>, xs: seq<T>, x: T)
    ensures Flat(f, xs + [x]) == Flat(f, xs) + f(x)
  {
    if xs == [] {
      assert (xs + [x])[1..] == [];
    } else {
      assert (xs + [x])[1..] == xs[1..] + [x];
      FlatAppend(f, xs[1..], x);
    }
  }

  /** Encodings that show where they end. */
  ghost predicate PrefixFree<T(!new)>(f: T -> seq<byte>) {
    forall a: T, b: T, x: seq<byte>, y: seq<byte> {:trigger f(a) + x, f(b) + y} ::
      f(a) + x == f(b) + y ==> a == b && x == y
  }

  lemma {:induction false} FlatPrefixFree<T(!new)>(f: T -> seq<byte>, xs: seq<T>, ys: seq<T>, x: seq<byte>, y: seq<byte>)
    requires PrefixFree(f) && |xs| == |ys|
    requires Flat(f, xs) + x == Flat(f, ys) + y
    ensures xs == ys && x == y
  {
    if xs == [] {
      assert Flat(f, xs) + x == x && Flat(f, ys) + y == y;
    } else {
      assert Flat(f, xs) + x == f(xs[0]) + (Flat(f, xs[1..]) + x);
      assert Flat(f, ys) + y == f(ys[0]) + (Flat(f, ys[1..]) + y);
      FlatPrefixFree(f, xs[1..], ys[1..], x, y);
    }
  }

  lemma {:induction false} FlatInjective<T(!new)>(f: T -> seq<byte>, xs: seq<T>, ys: seq<T>)
    requires PrefixFree(f) && forall a :: f(a) != []
    requires Flat(f, xs) == Flat(f, ys)
    ensures xs == ys
  {
    if xs != [] && ys != [] {
      assert Flat(f, xs) == f(xs[0]) + Flat(f, xs[1..]) && Flat(f, ys) == f(ys[0]) + Flat(f, ys[1..]);
      FlatInjective(f, xs[1..], ys[1..]);
    }
  }

  lemma {:induction false} FlatLength<T>(f: T -> seq<byte>, xs: seq<T>, n: nat)
    requires forall i :: 0 <= i < |xs| ==> |f(xs[i])| == n
    ensures |Flat(f, xs)| == n * |xs|
  {
    if xs != [] {
      FlatLength(f, xs[1..], n);
    }
  }

  // -------------------------------------------------------------- hexadecimal

  function HexDigit(v: nat): char
    requires v < 16
  {
    if v < 10 then (v + '0' as int) as char else (v - 10 + 'a' as int) as char
  }

  /** hex.EncodeToString. */
  function Hex(bs: seq<byte>): (s: string)
    ensures |s| == 2 * |bs|
  {
    if bs == [] then "" else [HexDigit(bs[0] / 16), HexDigit(bs[0] % 16)] + Hex(bs[1..])
  }

  function HexValue(c: char): (v: Option<nat>)
    ensures v.Some? ==> v.value < 16
  {
    if '0' <= c <= '9' then Some(c as int - '0' as int)
    else if 'a' <= c <= 'f' then Some(c as int - 'a' as int + 10)
    else if 'A' <= c <= 'F' then Some(c as int - 'A' as int + 10)
    else None
  }

  /** hex.DecodeString. */
  function Unhex(s: string): (r: Option<seq<byte>>)
    ensures r.Some? ==> |s| == 2 * |r.value|
  {
    if s == "" then Some([])
    else if |s| == 1 then None
    else
      var high := HexValue(s[0]);
      var low := HexValue(s[1]);
      var rest := Unhex(s[2..]);
      if high.None? || low.None? || rest.None? then None
      else Some([16 * high.value + low.value] + rest.value)
  }

  lemma {:induction false} UnhexOfHex(bs: seq<byte>)
    ensures Unhex(Hex(bs)) == Some(bs)
  {
    if bs != [] {
      UnhexOfHex(bs[1..]);
      assert Hex(bs)[2..] == Hex(bs[1..]);
      assert 16 * (bs[0] / 16) + bs[0] % 16 == bs[0];
      assert bs == [bs[0]] + bs[1..];
    }
  }

  const DIGITS: string := "0123456789abcdef"

  lemma HexDigitIs(v: nat)
    requires v < 16
    ensures HexDigit(v) == DIGITS[v]
  {
  }

  /** Byte `i` is written as two lower-case digits, the high one first. */
  lemma {:induction false} HexAt(bs: seq<byte>, i: nat)
    requires i < |bs|
    ensures Hex(bs)[2 * i] == DIGITS[bs[i] / 16] && Hex(bs)[2 * i + 1] == DIGITS[bs[i] % 16]
  {
    if i == 0 {
      HexDigitIs(bs[0] / 16);
      HexDigitIs(bs[0] % 16);
    } else {
      HexAt(bs[1..], i - 1);
    }
  }

  function Reverse(bs: seq<byte>): (r: seq<byte>)
    ensures |r| == |bs|
  {
    seq(|bs|, i requires 0 <= i < |bs| => bs[|bs| - 1 - i])
  }

  lemma ReverseTwice(bs: seq<byte>)
    ensures Reverse(Reverse(bs)) == bs
  {
  }

  type Digest = d: seq<byte> | |d| == 32 witness seq(32, i => 0)

  /** SHA-256 is a parameter of every member that hashes. */
  type Hash = seq<byte> -> Digest

  /** The display form of a transaction id: bytes reversed, in hexadecimal. */
  function Display(d: Digest): (s: string)
    ensures |s| == 64
  {
    Hex(Reverse(d))
  }

  /** TxIDLEFromHex: 64 hexadecimal digits back to wire order. */
  function WireOrder(txid: string): Option<Digest> {
    var bs := Unhex(txid);
    if bs.None? || |bs.value| != 32 then None else Some(Reverse(bs.value))
  }

  /** Wire order and display form undo each other. */
  lemma WireOrderOfDisplay(d: Digest)
    ensures WireOrder(Display(d)) == Some(d)
  {
    UnhexOfHex(Reverse(d));
    ReverseTwice(d);
  }

  /** An id is shown with the last byte of its digest first. */
  lemma DisplayAt(d: Digest, i: nat)
    requires i < 32
    ensures Display(d)[2 * i] == DIGITS[d[31 - i] / 16] && Display(d)[2 * i + 1] == DIGITS[d[31 - i] % 16]
  {
    HexAt(Reverse(d), i);
  }

  /** The byte-swapping loop on a digest. */
  method ReverseDigest(d: array<byte>)
    modifies d
    ensures d[..] == Reverse(old(d[..]))
  {
    var left, right := 0, d.Length - 1;
    while left < right
      invariant 0 <= left <= d.Length && right == d.Length - 1 - left
      invariant left <= right + 2
      invariant forall k :: 0 <= k < d.Length && (k < left || k > right) ==> d[k] == old(d[d.Length - 1 - k])
      invariant forall k :: left <= k <= right ==> d[k] == old(d[k])
    {
      d[left], d[right] := d[right], d[left];
      left, right := left + 1, right - 1;
    }
  }
}
