/** Which of the byte strings that the parser of internal/txbuilder/txbuilder.go
    accepts are ones that its serializer writes. */
module Canonical {
  import opened Common
  import opened Bytes
  import opened Transaction
  import opened Parser
  import opened Grammar

  // ------------------------------------------------------------ one split of the bytes

  lemma {:induction false} SizePrefixFree(a: Size, b: Size, x: seq<byte>, y: seq<byte>)
    requires SizeBytes(a) + x == SizeBytes(b) + y
    ensures a == b && x == y
  {
    SizeRead(a, x);
    SizeRead(b, y);
    assert (SizeBytes(a) + x)[0] == SizeBytes(a)[0] && (SizeBytes(b) + y)[0] == SizeBytes(b)[0];
  }

  lemma {:induction false} FieldPrefixFree(a: Field, b: Field, x: seq<byte>, y: seq<byte>)
    requires FieldBytes(a) + x == FieldBytes(b) + y
    ensures a == b && x == y
  {
    hide SizeBytes;
    Assoc(SizeBytes(a.size), a.data, x);
    Assoc(SizeBytes(b.size), b.data, y);
    SizePrefixFree(a.size, b.size, a.data + x, b.data + y);
    SameCut(a.data, b.data, x, y);
  }

  lemma {:induction false} WireInputPrefixFree(a: WireInput, b: WireInput, x: seq<byte>, y: seq<byte>)
    requires WireInputBytes(a) + x == WireInputBytes(b) + y
    ensures a == b && x == y
  {
    hide FieldBytes;
    Assoc(a.prevout + FieldBytes(a.script), a.sequence, x);
    Assoc(b.prevout + FieldBytes(b.script), b.sequence, y);
    Assoc(a.prevout, FieldBytes(a.script), a.sequence + x);
    Assoc(b.prevout, FieldBytes(b.script), b.sequence + y);
    SameCut(a.prevout, b.prevout, FieldBytes(a.script) + (a.sequence + x), FieldBytes(b.script) + (b.sequence + y));
    FieldPrefixFree(a.script, b.script, a.sequence + x, b.sequence + y);
    SameCut(a.sequence, b.sequence, x, y);
  }

  lemma {:induction false} WireOutputPrefixFree(a: WireOutput, b: WireOutput, x: seq<byte>, y: seq<byte>)
    requires WireOutputBytes(a) + x == WireOutputBytes(b) + y
    ensures a == b && x == y
  {
    hide FieldBytes;
    Assoc(a.amount, FieldBytes(a.script), x);
    Assoc(b.amount, FieldBytes(b.script), y);
    SameCut(a.amount, b.amount, FieldBytes(a.script) + x, FieldBytes(b.script) + y);
    FieldPrefixFree(a.script, b.script, x, y);
  }

  lemma {:induction false} StackPrefixFree(a: Stack, b: Stack, x: seq<byte>, y: seq<byte>)
    requires StackBytes(a) + x == StackBytes(b) + y
    ensures a == b && x == y
  {
    hide FieldBytes, SizeBytes, Flat;
    Assoc(SizeBytes(a.count), Flat(FieldBytes, a.items), x);
    Assoc(SizeBytes(b.count), Flat(FieldBytes, b.items), y);
    SizePrefixFree(a.count, b.count, Flat(FieldBytes, a.items) + x, Flat(FieldBytes, b.items) + y);
    FieldsPrefixFree();
    FlatPrefixFree(FieldBytes, a.items, b.items, x, y);
  }

  lemma {:induction false} FieldsPrefixFree()
    ensures PrefixFree(FieldBytes)
  {
    hide FieldBytes;
    forall a: Field, b: Field, x, y | FieldBytes(a) + x == FieldBytes(b) + y ensures a == b && x == y {
      FieldPrefixFree(a, b, x, y);
    }
  }

  lemma {:induction false} PiecesPrefixFree()
    ensures PrefixFree(WireInputBytes) && PrefixFree(WireOutputBytes) && PrefixFree(StackBytes)
  {
    hide WireInputBytes, WireOutputBytes, StackBytes;
    forall a: WireInput, b: WireInput, x, y | WireInputBytes(a) + x == WireInputBytes(b) + y ensures a == b && x == y {
      WireInputPrefixFree(a, b, x, y);
    }
    forall a: WireOutput, b: WireOutput, x, y | WireOutputBytes(a) + x == WireOutputBytes(b) + y ensures a == b && x == y {
      WireOutputPrefixFree(a, b, x, y);
    }
    forall a: Stack, b: Stack, x, y | StackBytes(a) + x == StackBytes(b) + y ensures a == b && x == y {
      StackPrefixFree(a, b, x, y);
    }
  }

  lemma RenderNested(t: WireTx)
    ensures t.Render() == (t.version + [0, 1]) + (t.Middle() + (Flat(StackBytes, t.stacks) + t.lockTime))
    ensures forall x :: t.Middle() + x == SizeBytes(t.inCount) + (Flat(WireInputBytes, t.inputs)
                          + (SizeBytes(t.outCount) + (Flat(WireOutputBytes, t.outputs) + x)))
  {
    hide Flat, SizeBytes;
    Assoc(t.version + [0, 1], t.Middle(), Flat(StackBytes, t.stacks));
    Assoc(t.version + [0, 1], t.Middle() + Flat(StackBytes, t.stacks), t.lockTime);
    Assoc(t.Middle(), Flat(StackBytes, t.stacks), t.lockTime);
    forall x ensures t.Middle() + x == SizeBytes(t.inCount) + (Flat(WireInputBytes, t.inputs)
                          + (SizeBytes(t.outCount) + (Flat(WireOutputBytes, t.outputs) + x)))
    {
      FourParts(SizeBytes(t.inCount), Flat(WireInputBytes, t.inputs), SizeBytes(t.outCount), Flat(WireOutputBytes, t.outputs), x);
    }
  }

  lemma FourParts(a: seq<byte>, b: seq<byte>, c: seq<byte>, d: seq<byte>, x: seq<byte>)
    ensures a + b + c + d + x == a + (b + (c + (d + x)))
  {
    Assoc(a + b + c, d, x);
    Assoc(a + b, c, d + x);
    Assoc(a, b, c + (d + x));
  }

  /** What the parser accepts splits in one way only. */
  lemma {:induction false} SplitUnique(t: WireTx, u: WireTx)
    requires t.Good() && u.Good() && t.Render() == u.Render()
    ensures t == u
  {
    hide Flat, SizeBytes, WireInputBytes, WireOutputBytes, StackBytes, PrefixFree;
    RenderNested(t);
    RenderNested(u);
    PiecesPrefixFree();
    var x, y := Flat(StackBytes, t.stacks) + t.lockTime, Flat(StackBytes, u.stacks) + u.lockTime;
    SameCut(t.version + [0, 1], u.version + [0, 1], t.Middle() + x, u.Middle() + y);
    SameCut(t.version, u.version, [0, 1], [0, 1]);
    var ot, ou := Flat(WireOutputBytes, t.outputs) + x, Flat(WireOutputBytes, u.outputs) + y;
    SizePrefixFree(t.inCount, u.inCount, Flat(WireInputBytes, t.inputs) + (SizeBytes(t.outCount) + ot),
                   Flat(WireInputBytes, u.inputs) + (SizeBytes(u.outCount) + ou));
    FlatPrefixFree(WireInputBytes, t.inputs, u.inputs, SizeBytes(t.outCount) + ot, SizeBytes(u.outCount) + ou);
    SizePrefixFree(t.outCount, u.outCount, ot, ou);
    FlatPrefixFree(WireOutputBytes, t.outputs, u.outputs, x, y);
    FlatPrefixFree(StackBytes, t.stacks, u.stacks, t.lockTime, u.lockTime);
  }

  // ------------------------------------------------------------- the serializer's form

  function ShortestWidth(n: nat): nat {
    if n < 0xfd then 0 else if n <= 0xffff then 2 else if n <= 0xffff_ffff then 4 else 8
  }

  /** The shortest form of a size that fits a Go slice. */
  predicate Minimal(z: Size) { z.value < TWO_63 && z.width == ShortestWidth(z.value) }

  predicate CanonicalField(d: Field) { Minimal(d.size) }

  predicate CanonicalInput(i: WireInput) { i.script == AnyField(AnySize(0, 0), []) }

  predicate CanonicalOutput(o: WireOutput) { CanonicalField(o.script) && FromLE(o.amount) < TWO_63 }

  predicate CanonicalStack(k: Stack) {
    && Minimal(k.count) && |k.items| == 2
    && CanonicalField(k.items[0]) && |k.items[0].data| == SIG_LEN
    && CanonicalField(k.items[1]) && |k.items[1].data| == PK_LEN
  }

  /** Every size in its shortest form, every input script empty, every amount below
      2^63, every stack a signature and a key. */
  predicate CanonicalTx(t: WireTx) {
    && Minimal(t.inCount) && Minimal(t.outCount)
    && (forall i :: 0 <= i < |t.inputs| ==> CanonicalInput(t.inputs[i]))
    && (forall i :: 0 <= i < |t.outputs| ==> CanonicalOutput(t.outputs[i]))
    && (forall i :: 0 <= i < |t.stacks| ==> CanonicalStack(t.stacks[i]))
  }

  function SizeOf(n: nat): Size
    requires n < TWO_63
  {
    Widths();
    AnySize(n, ShortestWidth(n))
  }

  function FieldOf(s: Script): Field { AnyField(SizeOf(|s|), s) }

  function WireInputOf(i: TxInput): WireInput {
    AnyWireInput(i.txid + LE(i.vout, 4), AnyField(AnySize(0, 0), []), LE(i.sequence, 4))
  }

  function WireOutputOf(o: TxOutput): WireOutput { AnyWireOutput(LE(U64(o.amount), 8), FieldOf(o.script)) }

  function StackOf(w: Witness): Stack { AnyStack(AnySize(2, 0), [FieldOf(w.sig), FieldOf(w.pubKey)]) }

  function WireOf(tx: SignedTx): WireTx {
    WireTx(VersionBytes(tx.core), SizeOf(|tx.core.inputs|),
           seq(|tx.core.inputs|, i requires 0 <= i < |tx.core.inputs| => WireInputOf(tx.core.inputs[i])),
           SizeOf(|tx.core.outputs|),
           seq(|tx.core.outputs|, i requires 0 <= i < |tx.core.outputs| => WireOutputOf(tx.core.outputs[i])),
           seq(|tx.witnesses|, i requires 0 <= i < |tx.witnesses| => StackOf(tx.witnesses[i])),
           LockBytes(tx.core))
  }

  lemma SizeOfBytes(n: nat)
    requires n < TWO_63
    ensures SizeBytes(SizeOf(n)) == Compact(n)
  {
  }

  lemma {:induction false} FlatSame<A, B>(f: A -> seq<byte>, xs: seq<A>, g: B -> seq<byte>, ys: seq<B>)
    requires |xs| == |ys| && forall i :: 0 <= i < |xs| ==> f(xs[i]) == g(ys[i])
    ensures Flat(f, xs) == Flat(g, ys)
  {
    if xs != [] { FlatSame(f, xs[1..], g, ys[1..]); }
  }

  lemma InputSame(i: TxInput)
    ensures WireInputBytes(WireInputOf(i)) == InputBytes(i)
  {
    hide LE;
    assert FieldBytes(AnyField(AnySize(0, 0), [])) == [0] == Compact(0);
  }

  lemma FieldSame(s: Script)
    ensures FieldBytes(FieldOf(s)) == ScriptBytes(s)
  {
    SizeOfBytes(|s|);
  }

  lemma StackSame(w: Witness)
    ensures StackBytes(StackOf(w)) == WitnessBytes(w)
  {
    hide SizeOf;
    FieldSame(w.sig);
    FieldSame(w.pubKey);
    var items := [FieldOf(w.sig), FieldOf(w.pubKey)];
    hide FieldBytes, FieldOf, ScriptBytes;
    assert items[1..] == [items[1]] && items[1..][1..] == [];
    assert Flat(FieldBytes, items[1..]) == FieldBytes(items[1]) + [];
    assert SizeBytes(AnySize(2, 0)) == [2] == Compact(2);
  }

  /** The serializer writes the rendering of the wire form. */
  lemma WireRenders(tx: SignedTx)
    ensures WireOf(tx).Render() == Extended(tx)
  {
    hide Flat, LE, FieldOf, ScriptBytes, SizeBytes, Compact;
    var t := WireOf(tx);
    SizeOfBytes(|tx.core.inputs|);
    SizeOfBytes(|tx.core.outputs|);
    forall i | 0 <= i < |t.inputs| ensures WireInputBytes(t.inputs[i]) == InputBytes(tx.core.inputs[i]) {
      InputSame(tx.core.inputs[i]);
    }
    forall i | 0 <= i < |t.outputs| ensures WireOutputBytes(t.outputs[i]) == OutputBytes(tx.core.outputs[i]) {
      FieldSame(tx.core.outputs[i].script);
    }
    forall i | 0 <= i < |t.stacks| ensures StackBytes(t.stacks[i]) == WitnessBytes(tx.witnesses[i]) {
      StackSame(tx.witnesses[i]);
    }
    hide WireInputBytes, WireOutputBytes, StackBytes, InputBytes, OutputBytes, WitnessBytes, WireInputOf, WireOutputOf, StackOf;
    FlatSame(WireInputBytes, t.inputs, InputBytes, tx.core.inputs);
    FlatSame(WireOutputBytes, t.outputs, OutputBytes, tx.core.outputs);
    FlatSame(StackBytes, t.stacks, WitnessBytes, tx.witnesses);
  }

  lemma {:induction false} WireCanonical(tx: SignedTx)
    requires Serialize(tx).Ok?
    ensures WireOf(tx).Good() && CanonicalTx(WireOf(tx))
  {
    hide LE;
    Widths();
    WitnessErrorNone(tx.witnesses);
    var t := WireOf(tx);
    forall i | 0 <= i < |t.outputs| ensures CanonicalOutput(t.outputs[i]) {
      AmountCanonical(tx.core.outputs[i]);
    }
    hide CanonicalOutput;
    forall i | 0 <= i < |t.stacks| ensures CanonicalStack(t.stacks[i]) {
      assert GoodWitness(tx.witnesses[i]);
    }
  }

  lemma AmountCanonical(o: TxOutput)
    requires o.amount >= 0
    ensures CanonicalOutput(WireOutputOf(o))
  {
    Widths();
    FromLEOfLE(U64(o.amount), 8);
  }

  // ------------------------------------------------------- back to a transaction

  /** The int32 whose two's complement is `u`. */
  function Signed(u: uint32): int32 { if u < 0x8000_0000 then u else u - TWO_32 }

  function TxInputOf(i: WireInput): TxInput {
    Widths();
    TxInput(i.prevout[..32], FromLE(i.prevout[32..]), FromLE(i.sequence))
  }

  function TxOutputOf(o: WireOutput): TxOutput
    requires CanonicalOutput(o)
  {
    TxOutput(FromLE(o.amount), o.script.data)
  }

  function WitnessOf(k: Stack): Witness
    requires CanonicalStack(k)
  {
    Witness(k.items[0].data, k.items[1].data)
  }

  function TxOf(t: WireTx): SignedTx
    requires t.Good() && CanonicalTx(t)
  {
    Widths();
    SignedTx(Core(Signed(FromLE(t.version)),
                  seq(|t.inputs|, i requires 0 <= i < |t.inputs| => TxInputOf(t.inputs[i])),
                  seq(|t.outputs|, i requires 0 <= i < |t.outputs| => TxOutputOf(t.outputs[i])),
                  FromLE(t.lockTime)),
             seq(|t.stacks|, i requires 0 <= i < |t.stacks| => WitnessOf(t.stacks[i])))
  }

  lemma SizeBack(z: Size)
    requires Minimal(z)
    ensures SizeOf(z.value) == z
  {
  }

  lemma InputBack(i: WireInput)
    requires CanonicalInput(i)
    ensures WireInputOf(TxInputOf(i)) == i
  {
    Widths();
    LEOfFromLE(i.prevout[32..]);
    LEOfFromLE(i.sequence);
    assert i.prevout == i.prevout[..32] + i.prevout[32..];
  }

  lemma OutputBack(o: WireOutput)
    requires CanonicalOutput(o)
    ensures WireOutputOf(TxOutputOf(o)) == o
  {
    hide LE, FromLE;
    LEOfFromLE(o.amount);
  }

  lemma StackBack(k: Stack)
    requires CanonicalStack(k)
    ensures StackOf(WitnessOf(k)) == k
  {
    assert k.items == [k.items[0], k.items[1]];
  }

  lemma HeadBack(version: seq<byte>)
    requires |version| == 4
    ensures FromLE(version) < TWO_32 && LE(U32(Signed(FromLE(version))), 4) == version
  {
    Widths();
    LEOfFromLE(version);
    hide LE, FromLE;
  }

  lemma {:induction false} WireBack(t: WireTx)
    requires t.Good() && CanonicalTx(t)
    ensures WireOf(TxOf(t)) == t && Serialize(TxOf(t)).Ok?
  {
    hide LE, FromLE, Minimal, SizeOf;
    var tx := TxOf(t);
    var u := WireOf(tx);
    Widths();
    HeadBack(t.version);
    LEOfFromLE(t.lockTime);
    SizeBack(t.inCount);
    SizeBack(t.outCount);
    forall i | 0 <= i < |t.inputs| ensures u.inputs[i] == t.inputs[i] { InputBack(t.inputs[i]); }
    forall i | 0 <= i < |t.outputs| ensures u.outputs[i] == t.outputs[i] { OutputBack(t.outputs[i]); }
    forall i | 0 <= i < |t.stacks| ensures u.stacks[i] == t.stacks[i] { StackBack(t.stacks[i]); }
    assert u.inputs == t.inputs && u.outputs == t.outputs && u.stacks == t.stacks;
    forall i | 0 <= i < |tx.witnesses| ensures GoodWitness(tx.witnesses[i]) { assert CanonicalStack(t.stacks[i]); }
    WitnessErrorNone(tx.witnesses);
    assert NonNegative(tx.core.outputs);
  }

  /** An accepted split is the serializer's output exactly when it is canonical. */
  lemma {:induction false} SerializedIff(t: WireTx)
    requires t.Good()
    ensures (exists tx :: Serialize(tx) == Ok(t.Render())) <==> CanonicalTx(t)
  {
    hide CanonicalTx, WireOf, TxOf, Extended;
    if tx :| Serialize(tx) == Ok(t.Render()) {
      WireRenders(tx);
      WireCanonical(tx);
      SplitUnique(t, WireOf(tx));
    }
    if CanonicalTx(t) {
      WireBack(t);
      WireRenders(TxOf(t));
    }
  }

  /** On bytes: the parser accepts what no transaction serializes to exactly when the
      one split of the bytes is not canonical. */
  lemma {:induction false} ReserializesIff(raw: seq<byte>)
    requires Strip(raw).Some?
    ensures (exists tx :: Serialize(tx) == Ok(raw)) <==> exists t: WireTx :: t.Good() && t.Render() == raw && CanonicalTx(t)
  {
    hide Strip, CanonicalTx, Serialize;
    var t := StripFound(raw);
    SerializedIff(t);
    if u: WireTx :| u.Good() && u.Render() == raw && CanonicalTx(u) {
      SplitUnique(t, u);
    }
  }

  // ---------------------------------------------------------- accepted, not canonical

  const EMPTY_FIELD: Field := AnyField(AnySize(0, 0), [])
  const SCRIPT_BYTE: Field := AnyField(AnySize(1, 0), [7])
  const BLANK: seq<byte> := [0, 0, 0, 0, 0, 0, 0, 0, 0, 0, 0, 0, 0, 0, 0, 0, 0, 0, 0, 0, 0, 0, 0, 0, 0, 0, 0, 0, 0, 0, 0, 0, 0, 0, 0, 0]
  const BARE_OUTPUT: WireOutput := AnyWireOutput([1, 0, 0, 0, 0, 0, 0, 0], EMPTY_FIELD)

  function SignedStack(): Stack { StackOf(Witness(seq(SIG_LEN, i => 0), seq(PK_LEN, i => 0))) }

  /** One signed input with this script, one output; the input count in its one-byte
      form or in three bytes. */
  function Small(script: Field, width: nat): WireTx
    requires width == 0 || width == 2
  {
    Widths();
    WireTx([2, 0, 0, 0], AnySize(1, width), [AnyWireInput(BLANK, script, [0, 0, 0, 0])], AnySize(1, 0), [BARE_OUTPUT],
           [SignedStack()], [0, 0, 0, 0])
  }

  lemma SmallCanonicalIff(script: Field, width: nat)
    requires width == 0 || width == 2
    ensures Small(script, width).Good()
    ensures CanonicalTx(Small(script, width)) <==> width == 0 && script == EMPTY_FIELD
  {
    hide LE, FromLE;
    var t := Small(script, width);
    AmountCanonical(TxOutput(1, []));
    OneIsOne();
    assert CanonicalStack(SignedStack());
    assert CanonicalInput(t.inputs[0]) <==> script == EMPTY_FIELD;
  }

  lemma OneIsOne()
    ensures FromLE([1, 0, 0, 0, 0, 0, 0, 0]) == 1
  {
    assert FromLE([0, 0, 0, 0]) == 0;
    assert [1, 0, 0, 0, 0, 0, 0, 0][1..] == [0, 0, 0, 0, 0, 0, 0];
    assert [0, 0, 0, 0, 0, 0, 0][1..][1..][1..] == [0, 0, 0, 0];
  }

  /** Of three signed transactions that differ only there, the parser accepts all: one
      that the serializer writes, and two that it never writes, the one with its input
      count in three bytes, the other with a script byte in its input. */
  lemma {:induction false} AcceptedButNeverWritten()
    ensures exists tx :: Serialize(tx) == Ok(Small(EMPTY_FIELD, 0).Render())
    ensures Strip(Small(EMPTY_FIELD, 2).Render()).Some? && !exists tx :: Serialize(tx) == Ok(Small(EMPTY_FIELD, 2).Render())
    ensures Strip(Small(SCRIPT_BYTE, 0).Render()).Some? && !exists tx :: Serialize(tx) == Ok(Small(SCRIPT_BYTE, 0).Render())
  {
    hide Strip, Serialize, Small, CanonicalTx;
    SmallCanonicalIff(EMPTY_FIELD, 0);
    SmallCanonicalIff(EMPTY_FIELD, 2);
    SmallCanonicalIff(SCRIPT_BYTE, 0);
    SerializedIff(Small(EMPTY_FIELD, 0));
    SerializedIff(Small(EMPTY_FIELD, 2));
    SerializedIff(Small(SCRIPT_BYTE, 0));
    StripOfRender(Small(EMPTY_FIELD, 2));
    StripOfRender(Small(SCRIPT_BYTE, 0));
  }
}
