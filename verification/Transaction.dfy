/** Transactions and their two serializers: the BIP-144 one of
    internal/txbuilder/txbuilder.go and the witness-free one of wallet/wallet.go. */
module Transaction {
  import opened Common
  import opened Bytes

  const SIG_LEN: nat := 17088
  const PK_LEN: nat := 32

  /** A Go slice: its length is an int. */
  type Script = s: seq<byte> | |s| < TWO_63

  datatype TxInput = TxInput(txid: Digest, vout: uint32, sequence: uint32)

  datatype TxOutput = TxOutput(amount: int64, script: Script)

  datatype Witness = Witness(sig: Script, pubKey: Script)

  type Inputs = s: seq<TxInput> | |s| < TWO_63
  type Outputs = s: seq<TxOutput> | |s| < TWO_63

  /** The fields that the transaction id commits to. */
  datatype Core = Core(version: int32, inputs: Inputs, outputs: Outputs, lockTime: uint32)

  datatype SignedTx = SignedTx(core: Core, witnesses: seq<Witness>)

  datatype TxError =
    | NoInputs
    | NoOutputs
    | WitnessCount
    | SigLength
    | PubKeyLength
    | NegativeAmount

  // ------------------------------------------------------------ field encodings

  function InputBytes(i: TxInput): (bs: seq<byte>)
    ensures |bs| == 41
  {
    i.txid + LE(i.vout, 4) + Compact(0) + LE(i.sequence, 4)
  }

  function ScriptBytes(s: Script): seq<byte> { Compact(|s|) + s }

  function OutputBytes(o: TxOutput): (bs: seq<byte>)
    ensures bs != []
  {
    LE(U64(o.amount), 8) + ScriptBytes(o.script)
  }

  function WitnessBytes(w: Witness): seq<byte> {
    Compact(2) + ScriptBytes(w.sig) + ScriptBytes(w.pubKey)
  }

  function VersionBytes(c: Core): seq<byte> { LE(U32(c.version), 4) }

  /** What both serializers put between version and witnesses or lock time. */
  function Middle(c: Core): seq<byte> {
    Compact(|c.inputs|) + Flat(InputBytes, c.inputs) + Compact(|c.outputs|) + Flat(OutputBytes, c.outputs)
  }

  function LockBytes(c: Core): seq<byte> { LE(c.lockTime, 4) }

  /** The witness-free form that p2qpkTxID hashes. */
  function Stripped(c: Core): seq<byte> { VersionBytes(c) + Middle(c) + LockBytes(c) }

  function Extended(tx: SignedTx): seq<byte> {
    VersionBytes(tx.core) + [0, 1] + Middle(tx.core) + Flat(WitnessBytes, tx.witnesses) + LockBytes(tx.core)
  }

  predicate GoodWitness(w: Witness) { |w.sig| == SIG_LEN && |w.pubKey| == PK_LEN }

  predicate NonNegative(outputs: seq<TxOutput>) { forall i :: 0 <= i < |outputs| ==> outputs[i].amount >= 0 }

  function WitnessError(ws: seq<Witness>): Option<TxError> {
    if ws == [] then None
    else if |ws[0].sig| != SIG_LEN then Some(SigLength)
    else if |ws[0].pubKey| != PK_LEN then Some(PubKeyLength)
    else WitnessError(ws[1..])
  }

  lemma {:induction false} WitnessErrorNone(ws: seq<Witness>)
    ensures WitnessError(ws).None? <==> forall i :: 0 <= i < |ws| ==> GoodWitness(ws[i])
  {
    if ws != [] {
      WitnessErrorNone(ws[1..]);
    }
  }

  function Serialize(tx: SignedTx): Result<seq<byte>, TxError> {
    if |tx.core.inputs| == 0 then Err(NoInputs)
    else if |tx.core.outputs| == 0 then Err(NoOutputs)
    else if |tx.witnesses| != |tx.core.inputs| then Err(WitnessCount)
    else if WitnessError(tx.witnesses).Some? then Err(WitnessError(tx.witnesses).value)
    else if !NonNegative(tx.core.outputs) then Err(NegativeAmount)
    else Ok(Extended(tx))
  }

  /** Exactly which transactions serialize. */
  lemma SerializeIff(tx: SignedTx)
    ensures Serialize(tx).Ok? <==>
              && tx.core.inputs != [] && tx.core.outputs != [] && |tx.witnesses| == |tx.core.inputs|
              && (forall i :: 0 <= i < |tx.witnesses| ==> |tx.witnesses[i].sig| == 17088 && |tx.witnesses[i].pubKey| == 32)
              && forall i :: 0 <= i < |tx.core.outputs| ==> tx.core.outputs[i].amount >= 0
  {
    hide WitnessError, Extended;
    WitnessErrorNone(tx.witnesses);
    assert forall i :: 0 <= i < |tx.witnesses| ==> (GoodWitness(tx.witnesses[i]) <==> |tx.witnesses[i].sig| == 17088 && |tx.witnesses[i].pubKey| == 32);
  }

  /** Of several things wrong with a transaction, the first of these is reported. */
  lemma SerializeRefusal(tx: SignedTx)
    requires Serialize(tx).Err?
    ensures match Serialize(tx).error
            case NoInputs => tx.core.inputs == []
            case NoOutputs => tx.core.inputs != [] && tx.core.outputs == []
            case WitnessCount => tx.core.inputs != [] && tx.core.outputs != [] && |tx.witnesses| != |tx.core.inputs|
            case SigLength => |tx.witnesses| == |tx.core.inputs| && exists i :: 0 <= i < |tx.witnesses| && |tx.witnesses[i].sig| != 17088
            case PubKeyLength => |tx.witnesses| == |tx.core.inputs| && exists i :: 0 <= i < |tx.witnesses| && |tx.witnesses[i].pubKey| != 32
            case NegativeAmount =>
              && (forall i :: 0 <= i < |tx.witnesses| ==> GoodWitness(tx.witnesses[i]))
              && exists i :: 0 <= i < |tx.core.outputs| && tx.core.outputs[i].amount < 0
  {
    hide Extended;
    WitnessErrorNone(tx.witnesses);
    WitnessErrorMeans(tx.witnesses);
    hide WitnessError;
  }

  lemma {:induction false} WitnessErrorMeans(ws: seq<Witness>)
    ensures WitnessError(ws) == Some(SigLength) ==> exists i :: 0 <= i < |ws| && |ws[i].sig| != SIG_LEN
    ensures WitnessError(ws) == Some(PubKeyLength) ==> exists i :: 0 <= i < |ws| && |ws[i].pubKey| != PK_LEN
    ensures WitnessError(ws) in {None, Some(SigLength), Some(PubKeyLength)}
  {
    if ws != [] {
      WitnessErrorMeans(ws[1..]);
      assert forall i :: 0 <= i < |ws| - 1 ==> ws[1..][i] == ws[i + 1];
    }
  }

  // ------------------------------------------------------------- the serializers

  method CheckWitnesses(ws: seq<Witness>) returns (e: Option<TxError>)
    ensures e == WitnessError(ws)
  {
    for i := 0 to |ws|
      invariant WitnessError(ws) == WitnessError(ws[i..])
    {
      if |ws[i].sig| != SIG_LEN {
        return Some(SigLength);
      }
      if |ws[i].pubKey| != PK_LEN {
        return Some(PubKeyLength);
      }
      assert ws[i..][1..] == ws[i + 1..];
    }
    return None;
  }

  lemma InputAppended(buf: seq<byte>, i: TxInput)
    ensures buf + i.txid + LE(i.vout, 4) + Compact(0) + LE(i.sequence, 4) == buf + InputBytes(i)
  {
    hide LE, Compact;
  }

  method WriteInputs(buf: seq<byte>, inputs: Inputs) returns (r: seq<byte>)
    ensures r == buf + Compact(|inputs|) + Flat(InputBytes, inputs)
  {
    hide LE, Compact;
    r := buf + Compact(|inputs|);
    ghost var start := r;
    for i := 0 to |inputs|
      invariant r == start + Flat(InputBytes, inputs[..i])
    {
      r := r + inputs[i].txid;
      r := r + LE(inputs[i].vout, 4);
      r := r + Compact(0);
      r := r + LE(inputs[i].sequence, 4);
      InputAppended(start + Flat(InputBytes, inputs[..i]), inputs[i]);
      FlatAppend(InputBytes, inputs[..i], inputs[i]);
      assert inputs[..i + 1] == inputs[..i] + [inputs[i]];
    }
    assert inputs[..|inputs|] == inputs;
  }

  method WriteScript(buf: seq<byte>, s: Script) returns (r: seq<byte>)
    ensures r == buf + ScriptBytes(s)
  {
    r := buf + Compact(|s|);
    r := r + s;
  }

  method WriteOutput(buf: seq<byte>, o: TxOutput) returns (r: seq<byte>)
    ensures r == buf + OutputBytes(o)
  {
    r := buf + LE(U64(o.amount), 8);
    r := WriteScript(r, o.script);
    Assoc(buf, LE(U64(o.amount), 8), ScriptBytes(o.script));
  }

  method WriteOutputs(buf: seq<byte>, outputs: Outputs) returns (r: seq<byte>)
    ensures r == buf + Compact(|outputs|) + Flat(OutputBytes, outputs)
  {
    r := buf + Compact(|outputs|);
    ghost var start := r;
    for i := 0 to |outputs|
      invariant r == start + Flat(OutputBytes, outputs[..i])
    {
      r := WriteOutput(r, outputs[i]);
      Assoc(start, Flat(OutputBytes, outputs[..i]), OutputBytes(outputs[i]));
      FlatAppend(OutputBytes, outputs[..i], outputs[i]);
      assert outputs[..i + 1] == outputs[..i] + [outputs[i]];
    }
    assert outputs[..|outputs|] == outputs;
  }

  method WriteWitness(buf: seq<byte>, w: Witness) returns (r: seq<byte>)
    ensures r == buf + WitnessBytes(w)
  {
    r := buf + Compact(2);
    r := WriteScript(r, w.sig);
    r := WriteScript(r, w.pubKey);
    Assoc(buf, Compact(2), ScriptBytes(w.sig));
    Assoc(buf, Compact(2) + ScriptBytes(w.sig), ScriptBytes(w.pubKey));
  }

  method WriteWitnesses(buf: seq<byte>, ws: seq<Witness>) returns (r: seq<byte>)
    ensures r == buf + Flat(WitnessBytes, ws)
  {
    r := buf;
    for i := 0 to |ws|
      invariant r == buf + Flat(WitnessBytes, ws[..i])
    {
      r := WriteWitness(r, ws[i]);
      Assoc(buf, Flat(WitnessBytes, ws[..i]), WitnessBytes(ws[i]));
      FlatAppend(WitnessBytes, ws[..i], ws[i]);
      assert ws[..i + 1] == ws[..i] + [ws[i]];
    }
    assert ws[..|ws|] == ws;
  }

  method SerializeBIP144(tx: SignedTx) returns (r: Result<seq<byte>, TxError>)
    ensures r == Serialize(tx)
  {
    if |tx.core.inputs| == 0 {
      return Err(NoInputs);
    }
    if |tx.core.outputs| == 0 {
      return Err(NoOutputs);
    }
    if |tx.witnesses| != |tx.core.inputs| {
      return Err(WitnessCount);
    }
    var bad := CheckWitnesses(tx.witnesses);
    if bad.Some? {
      return Err(bad.value);
    }
    for i := 0 to |tx.core.outputs|
      invariant NonNegative(tx.core.outputs[..i])
    {
      if tx.core.outputs[i].amount < 0 {
        return Err(NegativeAmount);
      }
    }
    var buf := WriteExtended(tx);
    return Ok(buf);
  }

  method WriteExtended(tx: SignedTx) returns (buf: seq<byte>)
    ensures buf == Extended(tx)
  {
    buf := LE(U32(tx.core.version), 4);
    buf := buf + [0, 1];
    ghost var start := buf;
    buf := WriteInputs(buf, tx.core.inputs);
    buf := WriteOutputs(buf, tx.core.outputs);
    MiddleAssoc(start, tx.core);
    buf := WriteWitnesses(buf, tx.witnesses);
    buf := buf + LE(tx.core.lockTime, 4);
  }

  lemma MiddleAssoc(start: seq<byte>, c: Core)
    ensures start + Compact(|c.inputs|) + Flat(InputBytes, c.inputs) + Compact(|c.outputs|) + Flat(OutputBytes, c.outputs)
         == start + Middle(c)
  {
    var a, b, x, y := Compact(|c.inputs|), Flat(InputBytes, c.inputs), Compact(|c.outputs|), Flat(OutputBytes, c.outputs);
    assert start + a + b + x + y == start + (a + b + x + y);
  }

  lemma NothingFlat(c: Core)
    ensures Flat(InputBytes, c.inputs[..0]) == [] == Flat(OutputBytes, c.outputs[..0])
  {
  }

  lemma OutputAppended(buf: seq<byte>, o: TxOutput)
    ensures buf + LE(U64(o.amount), 8) + Compact(|o.script|) + o.script == buf + OutputBytes(o)
  {
    hide LE, Compact;
  }

  /** p2qpkTxID of wallet/wallet.go, before the two hashes and the reversal. */
  method WritePreimage(c: Core) returns (buf: seq<byte>)
    ensures buf == Stripped(c)
  {
    hide LE, Compact, Flat;
    NothingFlat(c);
    buf := LE(U32(c.version), 4);
    MiddleAssoc(buf, c);
    buf := buf + Compact(|c.inputs|);
    ghost var start := buf;
    for i := 0 to |c.inputs|
      invariant buf == start + Flat(InputBytes, c.inputs[..i])
    {
      buf := buf + c.inputs[i].txid;
      buf := buf + LE(c.inputs[i].vout, 4);
      buf := buf + Compact(0);
      buf := buf + LE(c.inputs[i].sequence, 4);
      InputAppended(start + Flat(InputBytes, c.inputs[..i]), c.inputs[i]);
      FlatAppend(InputBytes, c.inputs[..i], c.inputs[i]);
      assert c.inputs[..i + 1] == c.inputs[..i] + [c.inputs[i]];
    }
    assert c.inputs[..|c.inputs|] == c.inputs;
    buf := buf + Compact(|c.outputs|);
    start := buf;
    for i := 0 to |c.outputs|
      invariant buf == start + Flat(OutputBytes, c.outputs[..i])
    {
      buf := buf + LE(U64(c.outputs[i].amount), 8);
      buf := buf + Compact(|c.outputs[i].script|);
      buf := buf + c.outputs[i].script;
      OutputAppended(start + Flat(OutputBytes, c.outputs[..i]), c.outputs[i]);
      FlatAppend(OutputBytes, c.outputs[..i], c.outputs[i]);
      assert c.outputs[..i + 1] == c.outputs[..i] + [c.outputs[i]];
    }
    assert c.outputs[..|c.outputs|] == c.outputs;
    buf := buf + LE(c.lockTime, 4);
  }

  function TxID(sha: Hash, stripped: seq<byte>): string { Display(sha(sha(stripped))) }

  /** Back in wire order an id is the double hash: the 32 bytes that an input spending
      the transaction carries. */
  lemma TxIDIsDoubleHash(sha: Hash, stripped: seq<byte>)
    ensures WireOrder(TxID(sha, stripped)) == Some(sha(sha(stripped))) && |TxID(sha, stripped)| == 64
  {
    hide Display, WireOrder;
    WireOrderOfDisplay(sha(sha(stripped)));
  }

  // ------------------------------------------------ one serialization per transaction

  lemma InputPrefixFree(a: TxInput, b: TxInput, x: seq<byte>, y: seq<byte>)
    requires InputBytes(a) + x == InputBytes(b) + y
    ensures a == b && x == y
  {
    Widths();
    var s := InputBytes(a) + x;
    assert s[..32] == a.txid && s[32..36] == LE(a.vout, 4) && s[37..41] == LE(a.sequence, 4) && s[41..] == x;
    assert s == InputBytes(b) + y;
    assert s[..32] == b.txid && s[32..36] == LE(b.vout, 4) && s[37..41] == LE(b.sequence, 4) && s[41..] == y;
    LEInjective(a.vout, b.vout, 4);
    LEInjective(a.sequence, b.sequence, 4);
  }

  lemma ScriptPrefixFree(a: Script, b: Script, x: seq<byte>, y: seq<byte>)
    requires ScriptBytes(a) + x == ScriptBytes(b) + y
    ensures a == b && x == y
  {
    hide Compact;
    Assoc(Compact(|a|), a, x);
    Assoc(Compact(|b|), b, y);
    CompactPrefixFree(|a|, |b|, a + x, b + y);
    SameCut(a, b, x, y);
  }

  lemma OutputPrefixFree(a: TxOutput, b: TxOutput, x: seq<byte>, y: seq<byte>)
    requires OutputBytes(a) + x == OutputBytes(b) + y
    ensures a == b && x == y
  {
    var p, q := LE(U64(a.amount), 8), LE(U64(b.amount), 8);
    Assoc(p, ScriptBytes(a.script), x);
    Assoc(q, ScriptBytes(b.script), y);
    SameCut(p, q, ScriptBytes(a.script) + x, ScriptBytes(b.script) + y);
    Widths();
    LEInjective(U64(a.amount), U64(b.amount), 8);
    ScriptPrefixFree(a.script, b.script, x, y);
  }

  lemma WitnessPrefixFree(a: Witness, b: Witness, x: seq<byte>, y: seq<byte>)
    requires WitnessBytes(a) + x == WitnessBytes(b) + y
    ensures a == b && x == y
  {
    var p, q := ScriptBytes(a.sig) + (ScriptBytes(a.pubKey) + x), ScriptBytes(b.sig) + (ScriptBytes(b.pubKey) + y);
    assert Compact(2) + p == WitnessBytes(a) + x && Compact(2) + q == WitnessBytes(b) + y;
    CompactPrefixFree(2, 2, p, q);
    ScriptPrefixFree(a.sig, b.sig, ScriptBytes(a.pubKey) + x, ScriptBytes(b.pubKey) + y);
    ScriptPrefixFree(a.pubKey, b.pubKey, x, y);
  }

  lemma AllPrefixFree()
    ensures PrefixFree(InputBytes) && PrefixFree(OutputBytes) && PrefixFree(WitnessBytes)
  {
    forall a, b, x, y {:trigger InputBytes(a) + x, InputBytes(b) + y} | InputBytes(a) + x == InputBytes(b) + y
      ensures a == b && x == y { InputPrefixFree(a, b, x, y); }
    forall a, b, x, y {:trigger OutputBytes(a) + x, OutputBytes(b) + y} | OutputBytes(a) + x == OutputBytes(b) + y
      ensures a == b && x == y { OutputPrefixFree(a, b, x, y); }
    forall a, b, x, y {:trigger WitnessBytes(a) + x, WitnessBytes(b) + y} | WitnessBytes(a) + x == WitnessBytes(b) + y
      ensures a == b && x == y { WitnessPrefixFree(a, b, x, y); }
  }

  /** Middle, followed by `x`, as nested pairs. */
  lemma MiddleNested(c: Core, x: seq<byte>)
    ensures Middle(c) + x == Compact(|c.inputs|) + (Flat(InputBytes, c.inputs)
              + (Compact(|c.outputs|) + (Flat(OutputBytes, c.outputs) + x)))
  {
    var a, b, p, q := Compact(|c.inputs|), Flat(InputBytes, c.inputs), Compact(|c.outputs|), Flat(OutputBytes, c.outputs);
    Assoc(a + b + p, q, x);
    Assoc(a + b, p, q + x);
    Assoc(a, b, p + (q + x));
  }

  lemma MiddlePrefixFree(c: Core, d: Core, x: seq<byte>, y: seq<byte>)
    requires Middle(c) + x == Middle(d) + y
    ensures c.inputs == d.inputs && c.outputs == d.outputs && x == y
  {
    AllPrefixFree();
    MiddleNested(c, x);
    MiddleNested(d, y);
    var outC, outD := Flat(OutputBytes, c.outputs) + x, Flat(OutputBytes, d.outputs) + y;
    var afterC, afterD := Compact(|c.outputs|) + outC, Compact(|d.outputs|) + outD;
    CompactPrefixFree(|c.inputs|, |d.inputs|, Flat(InputBytes, c.inputs) + afterC, Flat(InputBytes, d.inputs) + afterD);
    FlatPrefixFree(InputBytes, c.inputs, d.inputs, afterC, afterD);
    CompactPrefixFree(|c.outputs|, |d.outputs|, outC, outD);
    FlatPrefixFree(OutputBytes, c.outputs, d.outputs, x, y);
  }

  lemma VersionInjective(c: Core, d: Core)
    requires VersionBytes(c) == VersionBytes(d)
    ensures c.version == d.version
  {
    Widths();
    LEInjective(U32(c.version), U32(d.version), 4);
  }

  lemma LockInjective(c: Core, d: Core)
    requires LockBytes(c) == LockBytes(d)
    ensures c.lockTime == d.lockTime
  {
    Widths();
    LEInjective(c.lockTime, d.lockTime, 4);
  }

  /** The transaction id preimage determines every field it covers. */
  lemma StrippedInjective(c: Core, d: Core)
    requires Stripped(c) == Stripped(d)
    ensures c == d
  {
    Assoc(VersionBytes(c), Middle(c), LockBytes(c));
    Assoc(VersionBytes(d), Middle(d), LockBytes(d));
    SameCut(VersionBytes(c), VersionBytes(d), Middle(c) + LockBytes(c), Middle(d) + LockBytes(d));
    VersionInjective(c, d);
    MiddlePrefixFree(c, d, LockBytes(c), LockBytes(d));
    LockInjective(c, d);
  }

  /** The bytes after the marker and flag. */
  function Tail(tx: SignedTx): seq<byte> { Flat(WitnessBytes, tx.witnesses) + LockBytes(tx.core) }

  lemma ExtendedNested(tx: SignedTx)
    ensures Extended(tx) == (VersionBytes(tx.core) + [0, 1]) + (Middle(tx.core) + Tail(tx))
  {
    var a, b, c, d := VersionBytes(tx.core) + [0, 1], Middle(tx.core), Flat(WitnessBytes, tx.witnesses), LockBytes(tx.core);
    Assoc(a + b, c, d);
    Assoc(a, b, c + d);
  }

  /** Different signed transactions never serialize to the same bytes. */
  lemma SerializeInjective(tx: SignedTx, ty: SignedTx)
    requires Serialize(tx).Ok? && Serialize(tx) == Serialize(ty)
    ensures tx == ty
  {
    var c, d := tx.core, ty.core;
    ExtendedNested(tx);
    ExtendedNested(ty);
    SameCut(VersionBytes(c) + [0, 1], VersionBytes(d) + [0, 1], Middle(c) + Tail(tx), Middle(d) + Tail(ty));
    SameCut(VersionBytes(c), VersionBytes(d), [0, 1], [0, 1]);
    VersionInjective(c, d);
    MiddlePrefixFree(c, d, Tail(tx), Tail(ty));
    AllPrefixFree();
    FlatPrefixFree(WitnessBytes, tx.witnesses, ty.witnesses, LockBytes(c), LockBytes(d));
    LockInjective(c, d);
  }
}
