/** What the parser accepts: an independent grammar of extended transactions, and
    the serializer's output as one of its sentences. */
module Grammar {
  import opened Common
  import opened Bytes
  import opened Transaction
  import opened Parser

  // ------------------------------------------------------- pieces and their parser

  /** `skip` takes exactly one encoding by `f` off the front. */
  ghost predicate Undoes<T(!new)>(skip: seq<byte> -> Option<seq<byte>>, f: T -> seq<byte>) {
    forall x: T, rest: seq<byte> {:trigger skip(f(x) + rest)} :: skip(f(x) + rest) == Some(rest)
  }

  /** Whatever `skip` takes off is an encoding by `f`. */
  ghost predicate Covers<T(!new)>(skip: seq<byte> -> Option<seq<byte>>, f: T -> seq<byte>) {
    forall s: seq<byte> {:trigger skip(s)} :: skip(s).Some? ==> exists x: T :: s == f(x) + skip(s).value
  }

  lemma {:induction false} SkipManyFlat<T(!new)>(skip: seq<byte> -> Option<seq<byte>>, f: T -> seq<byte>, xs: seq<T>, rest: seq<byte>)
    requires Undoes(skip, f)
    ensures SkipMany(skip, Flat(f, xs) + rest, |xs|) == Some(rest)
  {
    if xs == [] {
      assert Flat(f, xs) + rest == rest;
    } else {
      Assoc(f(xs[0]), Flat(f, xs[1..]), rest);
      SkipManyFlat(skip, f, xs[1..], rest);
      assert skip(f(xs[0]) + (Flat(f, xs[1..]) + rest)) == Some(Flat(f, xs[1..]) + rest);
    }
  }

  lemma {:induction false} SkipManySound<T(!new)>(skip: seq<byte> -> Option<seq<byte>>, f: T -> seq<byte>, bs: seq<byte>, n: nat)
    returns (xs: seq<T>)
    requires Covers(skip, f)
    requires SkipMany(skip, bs, n).Some?
    ensures |xs| == n && bs == Flat(f, xs) + SkipMany(skip, bs, n).value
    decreases n
  {
    if n == 0 {
      xs := [];
      assert bs == Flat(f, xs) + bs;
    } else {
      var after := skip(bs).value;
      var x :| bs == f(x) + after;
      var tail := SkipManySound(skip, f, after, n - 1);
      xs := [x] + tail;
      assert xs[1..] == tail;
      Assoc(f(x), Flat(f, tail), SkipMany(skip, bs, n).value);
    }
  }

  /** `a` reads as the number `n`, whatever follows. */
  ghost predicate Reads(a: seq<byte>, n: nat) {
    forall rest: seq<byte> {:trigger ReadCompact(a + rest)} :: ReadCompact(a + rest) == Some((n, rest))
  }

  lemma SkipBodyOf<A(!new), B(!new), C(!new)>(f: A -> seq<byte>, g: B -> seq<byte>, h: C -> seq<byte>,
      a: seq<byte>, xs: seq<A>, b: seq<byte>, ys: seq<B>, zs: seq<C>)
    requires Undoes(SkipInput, f) && Undoes(SkipOutput, g) && Undoes(SkipStack, h)
    requires Reads(a, |xs|) && Reads(b, |ys|)
    requires |xs| > 0 && |ys| > 0 && |zs| == |xs|
    ensures SkipBody(a + Flat(f, xs) + b + Flat(g, ys) + Flat(h, zs)) == Some(Flat(h, zs))
  {
    hide ReadCompact, SkipInput, SkipOutput, SkipStack, SkipMany, Undoes;
    var w := Flat(h, zs);
    var outs := Flat(g, ys) + w;
    var ins := Flat(f, xs) + (b + outs);
    Assoc(a + Flat(f, xs) + b, Flat(g, ys), w);
    Assoc(a + Flat(f, xs), b, outs);
    Assoc(a, Flat(f, xs), b + outs);
    assert ReadCompact(a + ins) == Some((|xs|, ins));
    SkipManyFlat(SkipInput, f, xs, b + outs);
    assert ReadCompact(b + outs) == Some((|ys|, outs));
    SkipManyFlat(SkipOutput, g, ys, w);
    SkipManyFlat(SkipStack, h, zs, []);
    assert w + [] == w;
  }

  lemma StripOf(version: seq<byte>, middle: seq<byte>, witnesses: seq<byte>, lock: seq<byte>)
    requires |version| == 4 && |lock| == 4 && |middle| >= 2
    requires SkipBody(middle + witnesses) == Some(witnesses)
    ensures Strip(version + [0, 1] + middle + witnesses + lock) == Some(version + middle + lock)
  {
    hide SkipBody;
    var raw := version + [0, 1] + middle + witnesses + lock;
    assert raw[6..|raw| - 4] == middle + witnesses;
    assert (middle + witnesses)[..|middle|] == middle;
    assert raw[..4] == version && raw[|raw| - 4..] == lock;
  }

  // ---------------------------------------------------- the serializer's sentences

  lemma SizedUndone(s: Script, rest: seq<byte>)
    ensures SkipSized(ScriptBytes(s) + rest) == Some(rest)
  {
    Assoc(Compact(|s|), s, rest);
    ReadCompactOfCompact(|s|, s + rest);
    assert (s + rest)[|s|..] == rest;
  }

  lemma InputUndone(i: TxInput, rest: seq<byte>)
    ensures SkipInput(InputBytes(i) + rest) == Some(rest)
  {
    var s := InputBytes(i) + rest;
    var tail := LE(i.sequence, 4) + rest;
    assert s[36..] == ScriptBytes([]) + tail;
    SizedUndone([], tail);
    assert tail[4..] == rest;
  }

  lemma OutputUndone(o: TxOutput, rest: seq<byte>)
    ensures SkipOutput(OutputBytes(o) + rest) == Some(rest)
  {
    Assoc(LE(U64(o.amount), 8), ScriptBytes(o.script), rest);
    assert (LE(U64(o.amount), 8) + (ScriptBytes(o.script) + rest))[8..] == ScriptBytes(o.script) + rest;
    SizedUndone(o.script, rest);
  }

  lemma WitnessUndone(w: Witness, rest: seq<byte>)
    ensures SkipStack(WitnessBytes(w) + rest) == Some(rest)
  {
    hide ScriptBytes, SkipSized, ReadCompact;
    var a, b := ScriptBytes(w.sig), ScriptBytes(w.pubKey);
    Assoc(Compact(2) + a, b, rest);
    Assoc(Compact(2), a, b + rest);
    ReadCompactOfCompact(2, a + (b + rest));
    SizedUndone(w.sig, b + rest);
    SizedUndone(w.pubKey, rest);
  }

  lemma AllUndone()
    ensures Undoes(SkipInput, InputBytes) && Undoes(SkipOutput, OutputBytes) && Undoes(SkipStack, WitnessBytes)
  {
    hide SkipInput, SkipOutput, SkipStack, InputBytes, OutputBytes, WitnessBytes;
    forall i, rest ensures SkipInput(InputBytes(i) + rest) == Some(rest) { InputUndone(i, rest); }
    forall o, rest ensures SkipOutput(OutputBytes(o) + rest) == Some(rest) { OutputUndone(o, rest); }
    forall w, rest ensures SkipStack(WitnessBytes(w) + rest) == Some(rest) { WitnessUndone(w, rest); }
  }

  lemma CompactReads(n: uint64)
    ensures Reads(Compact(n), n)
  {
    forall rest ensures ReadCompact(Compact(n) + rest) == Some((n, rest)) { ReadCompactOfCompact(n, rest); }
  }

  /** Parsing what the signer serialized gives exactly what the wallet hashes for the
      transaction id, whatever the witnesses hold. */
  lemma StripOfSerialize(tx: SignedTx)
    requires Serialize(tx).Ok?
    ensures Strip(Serialize(tx).value) == Some(Stripped(tx.core))
  {
    hide SkipBody, Flat;
    var c := tx.core;
    AllUndone();
    CompactReads(|c.inputs|);
    CompactReads(|c.outputs|);
    SkipBodyOf(InputBytes, OutputBytes, WitnessBytes, Compact(|c.inputs|), c.inputs, Compact(|c.outputs|), c.outputs, tx.witnesses);
    StripOf(VersionBytes(c), Middle(c), Flat(WitnessBytes, tx.witnesses), LockBytes(c));
  }

  /** So the signer's cross-check of the two ids never fails, and the id says
      nothing about the witnesses. */
  lemma IdsAgree(sha: Hash, tx: SignedTx, ty: SignedTx)
    requires Serialize(tx).Ok? && Serialize(ty).Ok? && tx.core == ty.core
    ensures Strip(Serialize(tx).value).Some? && Strip(Serialize(ty).value).Some?
    ensures TxID(sha, Strip(Serialize(tx).value).value) == TxID(sha, Stripped(tx.core))
         == TxID(sha, Strip(Serialize(ty).value).value)
    ensures WireOrder(TxID(sha, Strip(Serialize(tx).value).value)) == Some(sha(sha(Stripped(tx.core))))
  {
    hide WireOrder, Stripped, Serialize, Strip;
    TxIDIsDoubleHash(sha, Stripped(tx.core));
    StripOfSerialize(tx);
    StripOfSerialize(ty);
  }

  // ------------------------------------------------------------ the whole grammar

  /** A compact size in any of its four widths, minimal or not. */
  datatype AnySize = AnySize(value: nat, width: nat)

  type Size = z: AnySize | z.width in {0, 2, 4, 8} && if z.width == 0 then z.value < 0xfd else z.value < Pow256(z.width)
    witness AnySize(0, 0)

  function SizeBytes(z: Size): seq<byte> {
    if z.width == 0 then [z.value]
    else [if z.width == 2 then 0xfd else if z.width == 4 then 0xfe else 0xff] + LE(z.value, z.width)
  }

  datatype AnyField = AnyField(size: Size, data: seq<byte>)

  type Field = d: AnyField | d.size.value == |d.data| witness AnyField(AnySize(0, 0), [])

  function FieldBytes(d: Field): seq<byte> { SizeBytes(d.size) + d.data }

  datatype AnyWireInput = AnyWireInput(prevout: seq<byte>, script: Field, sequence: seq<byte>)

  type WireInput = i: AnyWireInput | |i.prevout| == 36 && |i.sequence| == 4
    witness AnyWireInput(seq(36, i => 0), AnyField(AnySize(0, 0), []), [0, 0, 0, 0])

  function WireInputBytes(i: WireInput): seq<byte> { i.prevout + FieldBytes(i.script) + i.sequence }

  datatype AnyWireOutput = AnyWireOutput(amount: seq<byte>, script: Field)

  type WireOutput = o: AnyWireOutput | |o.amount| == 8
    witness AnyWireOutput(seq(8, i => 0), AnyField(AnySize(0, 0), []))

  function WireOutputBytes(o: WireOutput): seq<byte> { o.amount + FieldBytes(o.script) }

  datatype AnyStack = AnyStack(count: Size, items: seq<Field>)

  type Stack = k: AnyStack | k.count.value == |k.items| witness AnyStack(AnySize(0, 0), [])

  function StackBytes(k: Stack): seq<byte> { SizeBytes(k.count) + Flat(FieldBytes, k.items) }

  datatype WireTx = WireTx(version: seq<byte>, inCount: Size, inputs: seq<WireInput>,
                           outCount: Size, outputs: seq<WireOutput>, stacks: seq<Stack>, lockTime: seq<byte>)
  {
    predicate Good() {
      && |version| == 4 && |lockTime| == 4
      && inCount.value == |inputs| > 0
      && outCount.value == |outputs| > 0
      && |stacks| == |inputs|
    }

    function Middle(): seq<byte> {
      SizeBytes(inCount) + Flat(WireInputBytes, inputs) + SizeBytes(outCount) + Flat(WireOutputBytes, outputs)
    }

    function Render(): seq<byte> {
      version + [0, 1] + Middle() + Flat(StackBytes, stacks) + lockTime
    }

    function RenderStripped(): seq<byte> { version + Middle() + lockTime }
  }

  lemma SizeRead(z: Size, rest: seq<byte>)
    ensures ReadCompact(SizeBytes(z) + rest) == Some((z.value, rest))
  {
    var bs := SizeBytes(z) + rest;
    if z.width > 0 {
      FromLEOfLE(z.value, z.width);
      assert bs[1..1 + z.width] == LE(z.value, z.width);
    }
    assert bs[1 + z.width..] == rest;
  }

  lemma SizeFound(bs: seq<byte>) returns (z: Size)
    requires ReadCompact(bs).Some?
    ensures bs == SizeBytes(z) + ReadCompact(bs).value.1 && z.value == ReadCompact(bs).value.0
  {
    var width := FormWidth(bs[0]);
    z := AnySize(ReadCompact(bs).value.0, width);
    if width > 0 {
      LEOfFromLE(bs[1..1 + width]);
      assert bs[..1 + width] == [bs[0]] + bs[1..1 + width];
      assert bs == bs[..1 + width] + bs[1 + width..];
    } else {
      assert bs == [bs[0]] + bs[1..];
    }
  }

  /** The parser also takes longer forms than the serializers ever write. */
  lemma SerializerFormIff(z: Size)
    requires z.value < TWO_64
    ensures SizeBytes(z) == Compact(z.value) <==>
            z.width == (if z.value < 0xfd then 0 else if z.value <= 0xffff then 2 else if z.value <= 0xffff_ffff then 4 else 8)
  {
    if SizeBytes(z) == Compact(z.value) {
      assert |SizeBytes(z)| == 1 + z.width;
    }
  }

  lemma SizeReads(z: Size)
    ensures Reads(SizeBytes(z), z.value)
  {
    hide SizeBytes, ReadCompact;
    forall rest ensures ReadCompact(SizeBytes(z) + rest) == Some((z.value, rest)) { SizeRead(z, rest); }
  }

  lemma FieldUndone(d: Field, rest: seq<byte>)
    ensures SkipSized(FieldBytes(d) + rest) == Some(rest)
  {
    hide SizeBytes, ReadCompact;
    Assoc(SizeBytes(d.size), d.data, rest);
    SizeRead(d.size, d.data + rest);
    assert (d.data + rest)[|d.data|..] == rest;
  }

  lemma FieldFound(bs: seq<byte>) returns (d: Field)
    requires SkipSized(bs).Some?
    ensures bs == FieldBytes(d) + SkipSized(bs).value
  {
    hide SizeBytes, ReadCompact;
    var z := SizeFound(bs);
    var after := ReadCompact(bs).value.1;
    d := AnyField(z, after[..z.value]);
    assert after == after[..z.value] + after[z.value..];
    Assoc(SizeBytes(z), after[..z.value], after[z.value..]);
  }

  lemma WireInputUndone(i: WireInput, rest: seq<byte>)
    ensures SkipInput(WireInputBytes(i) + rest) == Some(rest)
  {
    hide FieldBytes, SkipSized;
    Assoc(i.prevout + FieldBytes(i.script), i.sequence, rest);
    Assoc(i.prevout, FieldBytes(i.script), i.sequence + rest);
    assert (i.prevout + (FieldBytes(i.script) + (i.sequence + rest)))[36..] == FieldBytes(i.script) + (i.sequence + rest);
    FieldUndone(i.script, i.sequence + rest);
    assert (i.sequence + rest)[4..] == rest;
  }

  lemma WireInputFound(bs: seq<byte>) returns (i: WireInput)
    requires SkipInput(bs).Some?
    ensures bs == WireInputBytes(i) + SkipInput(bs).value
  {
    hide FieldBytes, SkipSized;
    var d := FieldFound(bs[36..]);
    var after := SkipSized(bs[36..]).value;
    i := AnyWireInput(bs[..36], d, after[..4]);
    assert bs == bs[..36] + bs[36..] && after == after[..4] + after[4..];
    Assoc(bs[..36], FieldBytes(d), after);
    Assoc(bs[..36] + FieldBytes(d), after[..4], after[4..]);
  }

  lemma WireOutputUndone(o: WireOutput, rest: seq<byte>)
    ensures SkipOutput(WireOutputBytes(o) + rest) == Some(rest)
  {
    hide FieldBytes, SkipSized;
    Assoc(o.amount, FieldBytes(o.script), rest);
    assert (o.amount + (FieldBytes(o.script) + rest))[8..] == FieldBytes(o.script) + rest;
    FieldUndone(o.script, rest);
  }

  lemma WireOutputFound(bs: seq<byte>) returns (o: WireOutput)
    requires SkipOutput(bs).Some?
    ensures bs == WireOutputBytes(o) + SkipOutput(bs).value
  {
    hide FieldBytes, SkipSized;
    var d := FieldFound(bs[8..]);
    o := AnyWireOutput(bs[..8], d);
    assert bs == bs[..8] + bs[8..];
    Assoc(bs[..8], FieldBytes(d), SkipSized(bs[8..]).value);
  }

  lemma FieldsFit()
    ensures Undoes(SkipSized, FieldBytes) && Covers(SkipSized, FieldBytes)
  {
    hide SkipSized, FieldBytes;
    forall d, rest ensures SkipSized(FieldBytes(d) + rest) == Some(rest) { FieldUndone(d, rest); }
    forall s | SkipSized(s).Some? ensures exists d: Field :: s == FieldBytes(d) + SkipSized(s).value {
      var d := FieldFound(s);
    }
  }

  lemma StackUndone(k: Stack, rest: seq<byte>)
    ensures SkipStack(StackBytes(k) + rest) == Some(rest)
  {
    hide SizeBytes, ReadCompact, SkipMany, Flat, Undoes, Covers;
    FieldsFit();
    Assoc(SizeBytes(k.count), Flat(FieldBytes, k.items), rest);
    SizeRead(k.count, Flat(FieldBytes, k.items) + rest);
    SkipManyFlat(SkipSized, FieldBytes, k.items, rest);
  }

  lemma StackFound(bs: seq<byte>) returns (k: Stack)
    requires SkipStack(bs).Some?
    ensures bs == StackBytes(k) + SkipStack(bs).value
  {
    hide SizeBytes, ReadCompact, SkipMany, Flat, Undoes, Covers;
    FieldsFit();
    var z := SizeFound(bs);
    var after := ReadCompact(bs).value.1;
    var items := SkipManySound(SkipSized, FieldBytes, after, z.value);
    k := AnyStack(z, items);
    Assoc(SizeBytes(z), Flat(FieldBytes, items), SkipStack(bs).value);
  }

  lemma PiecesUndone()
    ensures Undoes(SkipInput, WireInputBytes) && Undoes(SkipOutput, WireOutputBytes) && Undoes(SkipStack, StackBytes)
  {
    hide SkipInput, SkipOutput, SkipStack, WireInputBytes, WireOutputBytes, StackBytes;
    forall i, rest ensures SkipInput(WireInputBytes(i) + rest) == Some(rest) { WireInputUndone(i, rest); }
    forall o, rest ensures SkipOutput(WireOutputBytes(o) + rest) == Some(rest) { WireOutputUndone(o, rest); }
    forall k, rest ensures SkipStack(StackBytes(k) + rest) == Some(rest) { StackUndone(k, rest); }
  }

  lemma PiecesCovered()
    ensures Covers(SkipInput, WireInputBytes) && Covers(SkipOutput, WireOutputBytes) && Covers(SkipStack, StackBytes)
  {
    hide SkipInput, SkipOutput, SkipStack, WireInputBytes, WireOutputBytes, StackBytes;
    forall s | SkipInput(s).Some? ensures exists i: WireInput :: s == WireInputBytes(i) + SkipInput(s).value {
      var i := WireInputFound(s);
    }
    forall s | SkipOutput(s).Some? ensures exists o: WireOutput :: s == WireOutputBytes(o) + SkipOutput(s).value {
      var o := WireOutputFound(s);
    }
    forall s | SkipStack(s).Some? ensures exists k: Stack :: s == StackBytes(k) + SkipStack(s).value {
      var k := StackFound(s);
    }
  }

  /** Every sentence is accepted and loses exactly its marker, flag and witnesses. */
  lemma StripOfRender(t: WireTx)
    requires t.Good()
    ensures Strip(t.Render()) == Some(t.RenderStripped())
  {
    hide SkipBody, Flat, SizeBytes, Undoes, Reads;
    PiecesUndone();
    SizeReads(t.inCount);
    SizeReads(t.outCount);
    SkipBodyOf(WireInputBytes, WireOutputBytes, StackBytes, SizeBytes(t.inCount), t.inputs, SizeBytes(t.outCount), t.outputs, t.stacks);
    SizeNonEmpty(t.inCount);
    SizeNonEmpty(t.outCount);
    StripOf(t.version, t.Middle(), Flat(StackBytes, t.stacks), t.lockTime);
  }

  lemma SizeNonEmpty(z: Size)
    ensures SizeBytes(z) != []
  {
  }

  lemma BodyFound(body: seq<byte>) returns (t: WireTx)
    requires SkipBody(body).Some?
    ensures t.version == t.lockTime == [0, 0, 0, 0] && t.Good()
    ensures body == t.Middle() + Flat(StackBytes, t.stacks) && SkipBody(body).value == Flat(StackBytes, t.stacks)
  {
    hide ReadCompact, SkipInput, SkipOutput, SkipStack, SkipMany, SizeBytes, Flat, Covers;
    PiecesCovered();
    var inCount := SizeFound(body);
    var b1 := ReadCompact(body).value.1;
    var inputs := SkipManySound(SkipInput, WireInputBytes, b1, inCount.value);
    var b2 := SkipMany(SkipInput, b1, inCount.value).value;
    var outCount := SizeFound(b2);
    var b3 := ReadCompact(b2).value.1;
    var outputs := SkipManySound(SkipOutput, WireOutputBytes, b3, outCount.value);
    var b4 := SkipMany(SkipOutput, b3, outCount.value).value;
    var stacks := SkipManySound(SkipStack, StackBytes, b4, inCount.value);
    t := WireTx([0, 0, 0, 0], inCount, inputs, outCount, outputs, stacks, [0, 0, 0, 0]);
    assert b4 == Flat(StackBytes, stacks) by { assert Flat(StackBytes, stacks) + [] == Flat(StackBytes, stacks); }
    Assoc(SizeBytes(outCount), Flat(WireOutputBytes, outputs), b4);
    Assoc(Flat(WireInputBytes, inputs), SizeBytes(outCount) + Flat(WireOutputBytes, outputs), b4);
  }

  /** Everything accepted is a sentence. */
  lemma StripFound(raw: seq<byte>) returns (t: WireTx)
    requires Strip(raw).Some?
    ensures t.Good() && raw == t.Render() && Strip(raw).value == t.RenderStripped()
  {
    hide SkipBody, Flat, SizeBytes;
    var body := raw[6..|raw| - 4];
    t := BodyFound(body);
    t := t.(version := raw[..4], lockTime := raw[|raw| - 4..]);
    var w := Flat(StackBytes, t.stacks);
    assert raw == raw[..4] + [0, 1] + body + raw[|raw| - 4..];
    Assoc(raw[..4] + [0, 1], t.Middle(), w);
    assert body[..|body| - |w|] == t.Middle();
  }

  /** The parser and the grammar agree on every byte string: it is accepted, with
      these witness-free bytes, exactly when it splits into version, marker and flag,
      inputs, outputs, one stack for each input and lock time. */
  lemma AcceptsExactly(raw: seq<byte>, stripped: seq<byte>)
    ensures Strip(raw) == Some(stripped) <==>
            exists t: WireTx :: t.Good() && t.Render() == raw && t.RenderStripped() == stripped
  {
    hide Strip;
    if Strip(raw) == Some(stripped) {
      var t := StripFound(raw);
    }
    if t: WireTx :| t.Good() && t.Render() == raw && t.RenderStripped() == stripped {
      StripOfRender(t);
    }
  }

  /** Exchanging the witnesses of an accepted transaction changes nothing. */
  lemma WitnessesIgnored(t: WireTx, stacks: seq<Stack>)
    requires t.Good() && |stacks| == |t.stacks|
    ensures Strip(t.(stacks := stacks).Render()) == Strip(t.Render())
  {
    hide Strip;
    StripOfRender(t);
    StripOfRender(t.(stacks := stacks));
  }
}
