/** computeP2QPKSighash of wallet/wallet.go: the digest that each input signs, and
    what it commits to. */
module Sighash {
  import opened Common
  import opened Bytes
  import opened Transaction

  /** The output an input spends. */
  datatype SpentUtxo = SpentUtxo(amount: int64, script: Script)

  datatype SpendParams = SpendParams(core: Core, spent: seq<SpentUtxo>, index: uint32)

  datatype SighashError = IndexOutOfRange | LengthMismatch

  // "P2QPKSighash" in ASCII
  const TAG: seq<byte> := [0x50, 0x32, 0x51, 0x50, 0x4b, 0x53, 0x69, 0x67, 0x68, 0x61, 0x73, 0x68]

  function PrevoutBytes(i: TxInput): seq<byte> { i.txid + LE(i.vout, 4) }
  function SequenceBytes(i: TxInput): seq<byte> { LE(i.sequence, 4) }
  function AmountBytes(u: SpentUtxo): seq<byte> { LE(U64(u.amount), 8) }
  function SpentScriptBytes(u: SpentUtxo): seq<byte> { ScriptBytes(u.script) }

  // The five lists that are hashed on their own.
  function Prevouts(p: SpendParams): seq<byte> { Flat(PrevoutBytes, p.core.inputs) }
  function Amounts(p: SpendParams): seq<byte> { Flat(AmountBytes, p.spent) }
  function Scripts(p: SpendParams): seq<byte> { Flat(SpentScriptBytes, p.spent) }
  function Sequences(p: SpendParams): seq<byte> { Flat(SequenceBytes, p.core.inputs) }
  function Outs(p: SpendParams): seq<byte> { Flat(OutputBytes, p.core.outputs) }

  function Heads(p: SpendParams): seq<byte> { VersionBytes(p.core) + LockBytes(p.core) }

  function Inner(sha: Hash, p: SpendParams): seq<byte> {
    sha(Prevouts(p)) + sha(Amounts(p)) + sha(Scripts(p)) + sha(Sequences(p)) + sha(Outs(p))
  }

  /** Everything the outer hash reads. */
  function Message(sha: Hash, p: SpendParams): seq<byte> {
    sha(TAG) + sha(TAG) + [0x00, 0x01] + Heads(p) + Inner(sha, p) + LE(p.index, 4)
  }

  function SighashOf(sha: Hash, p: SpendParams): Result<Digest, SighashError> {
    if p.index >= |p.core.inputs| then Err(IndexOutOfRange)
    else if |p.core.inputs| != |p.spent| then Err(LengthMismatch)
    else Ok(sha(Message(sha, p)))
  }

  // ------------------------------------------------------------- the computation

  method WritePrevouts(inputs: seq<TxInput>) returns (hp: seq<byte>, hq: seq<byte>)
    ensures hp == Flat(PrevoutBytes, inputs) && hq == Flat(SequenceBytes, inputs)
  {
    hp, hq := [], [];
    for i := 0 to |inputs|
      invariant hp == Flat(PrevoutBytes, inputs[..i]) && hq == Flat(SequenceBytes, inputs[..i])
    {
      hp := hp + (inputs[i].txid + LE(inputs[i].vout, 4));
      hq := hq + LE(inputs[i].sequence, 4);
      FlatAppend(PrevoutBytes, inputs[..i], inputs[i]);
      FlatAppend(SequenceBytes, inputs[..i], inputs[i]);
      assert inputs[..i + 1] == inputs[..i] + [inputs[i]];
    }
    assert inputs[..|inputs|] == inputs;
  }

  method WriteSpent(spent: seq<SpentUtxo>) returns (ha: seq<byte>, hs: seq<byte>)
    ensures ha == Flat(AmountBytes, spent) && hs == Flat(SpentScriptBytes, spent)
  {
    ha, hs := [], [];
    for i := 0 to |spent|
      invariant ha == Flat(AmountBytes, spent[..i]) && hs == Flat(SpentScriptBytes, spent[..i])
    {
      ha := ha + LE(U64(spent[i].amount), 8);
      hs := hs + (Compact(|spent[i].script|) + spent[i].script);
      FlatAppend(AmountBytes, spent[..i], spent[i]);
      FlatAppend(SpentScriptBytes, spent[..i], spent[i]);
      assert spent[..i + 1] == spent[..i] + [spent[i]];
    }
    assert spent[..|spent|] == spent;
  }

  method WriteOuts(outputs: seq<TxOutput>) returns (ho: seq<byte>)
    ensures ho == Flat(OutputBytes, outputs)
  {
    ho := [];
    for i := 0 to |outputs|
      invariant ho == Flat(OutputBytes, outputs[..i])
    {
      ho := WriteOutput(ho, outputs[i]);
      FlatAppend(OutputBytes, outputs[..i], outputs[i]);
      assert outputs[..i + 1] == outputs[..i] + [outputs[i]];
    }
    assert outputs[..|outputs|] == outputs;
  }

  method ComputeSighash(sha: Hash, p: SpendParams) returns (r: Result<Digest, SighashError>)
    ensures r == SighashOf(sha, p)
  {
    if p.index >= |p.core.inputs| {
      return Err(IndexOutOfRange);
    }
    if |p.core.inputs| != |p.spent| {
      return Err(LengthMismatch);
    }
    var tag: seq<byte> := sha(TAG);
    var h := tag + tag + [0x00, 0x01];
    h := h + (LE(U32(p.core.version), 4) + LE(p.core.lockTime, 4));
    var hp, hq := WritePrevouts(p.core.inputs);
    var ha, hs := WriteSpent(p.spent);
    var ho := WriteOuts(p.core.outputs);
    h := h + (sha(hp) + sha(ha) + sha(hs) + sha(hq) + sha(ho));
    h := h + LE(p.index, 4);
    return Ok(sha(h));
  }

  // ------------------------------------------------------------------- the layout

  const TAG_TEXT: string := "P2QPKSighash"

  lemma TagSpells()
    ensures |TAG| == |TAG_TEXT| && forall i :: 0 <= i < |TAG| ==> TAG[i] == TAG_TEXT[i] as int
  {
  }

  /** A digest exists exactly for the index of an input, of as many inputs as outputs spent. */
  lemma SighashIff(sha: Hash, p: SpendParams)
    ensures SighashOf(sha, p).Ok? <==> p.index < |p.core.inputs| == |p.spent|
    ensures SighashOf(sha, p) == Err(IndexOutOfRange) <==> p.index >= |p.core.inputs|
    ensures SighashOf(sha, p).Ok? ==> SighashOf(sha, p).value == sha(Message(sha, p))
  {
    hide Message;
  }

  /** Where everything stands in the 238 bytes that the outer hash reads. */
  lemma MessageLayout(sha: Hash, p: SpendParams)
    ensures var m := Message(sha, p);
            && |m| == 238 && m[..32] == sha(TAG) && m[32..64] == sha(TAG) && m[64..66] == [0x00, 0x01]
            && m[66..70] == LE(U32(p.core.version), 4) && m[70..74] == LE(p.core.lockTime, 4)
            && m[74..106] == sha(Prevouts(p)) && m[106..138] == sha(Amounts(p)) && m[138..170] == sha(Scripts(p))
            && m[170..202] == sha(Sequences(p)) && m[202..234] == sha(Outs(p))
            && m[234..238] == LE(p.index, 4)
  {
    hide LE, Prevouts, Amounts, Scripts, Sequences, Outs;
    var m := Message(sha, p);
    var inner := Inner(sha, p);
    assert inner[..32] == sha(Prevouts(p)) && inner[32..64] == sha(Amounts(p)) && inner[64..96] == sha(Scripts(p));
    assert inner[96..128] == sha(Sequences(p)) && inner[128..160] == sha(Outs(p));
    assert m[74..234] == inner;
    hide Inner, Message;
    assert inner[..32] == m[74..106] && inner[32..64] == m[106..138] && inner[64..96] == m[138..170];
    assert inner[96..128] == m[170..202] && inner[128..160] == m[202..234];
  }

  lemma {:induction false} FlatAt<T>(f: T -> seq<byte>, xs: seq<T>, i: nat)
    requires i < |xs|
    ensures Flat(f, xs) == Flat(f, xs[..i]) + f(xs[i]) + Flat(f, xs[i + 1..])
  {
    if i == 0 {
      assert Flat(f, xs[..0]) == [];
    } else {
      FlatAt(f, xs[1..], i - 1);
      assert xs[1..][..i - 1] == xs[..i][1..] && xs[1..][i..] == xs[i + 1..];
      assert xs[..i][0] == xs[0];
    }
  }

  /** What each hashed list says of its element `i`: the lists of fixed width by offset,
      the others after the elements before it. */
  lemma ListsLayout(p: SpendParams, i: nat)
    ensures i < |p.core.inputs| ==>
              var input := p.core.inputs[i];
              && |Prevouts(p)| == 36 * |p.core.inputs| && |Sequences(p)| == 4 * |p.core.inputs|
              && Prevouts(p)[36 * i..36 * i + 32] == input.txid && Prevouts(p)[36 * i + 32..36 * i + 36] == LE(input.vout, 4)
              && Sequences(p)[4 * i..4 * i + 4] == LE(input.sequence, 4)
    ensures i < |p.spent| ==>
              var spent := p.spent[i];
              && |Amounts(p)| == 8 * |p.spent| && Amounts(p)[8 * i..8 * i + 8] == LE(U64(spent.amount), 8)
              && Scripts(p) == Flat(SpentScriptBytes, p.spent[..i]) + (Compact(|spent.script|) + spent.script)
                               + Flat(SpentScriptBytes, p.spent[i + 1..])
    ensures i < |p.core.outputs| ==>
              var output := p.core.outputs[i];
              Outs(p) == Flat(OutputBytes, p.core.outputs[..i]) + (LE(U64(output.amount), 8) + (Compact(|output.script|) + output.script))
                         + Flat(OutputBytes, p.core.outputs[i + 1..])
  {
    hide LE, Compact, Flat;
    if i < |p.core.inputs| { InputsLayout(p.core.inputs, i); }
    if i < |p.spent| {
      FlatAt(AmountBytes, p.spent, i);
      FlatAt(SpentScriptBytes, p.spent, i);
      FlatLength(AmountBytes, p.spent, 8);
      FlatLength(AmountBytes, p.spent[..i], 8);
    }
    if i < |p.core.outputs| { FlatAt(OutputBytes, p.core.outputs, i); }
  }

  lemma InputsLayout(inputs: seq<TxInput>, i: nat)
    requires i < |inputs|
    ensures var hp, hq := Flat(PrevoutBytes, inputs), Flat(SequenceBytes, inputs);
            && |hp| == 36 * |inputs| && |hq| == 4 * |inputs|
            && hp[36 * i..36 * i + 32] == inputs[i].txid && hp[36 * i + 32..36 * i + 36] == LE(inputs[i].vout, 4)
            && hq[4 * i..4 * i + 4] == LE(inputs[i].sequence, 4)
  {
    hide LE, Flat;
    FlatAt(PrevoutBytes, inputs, i);
    FlatAt(SequenceBytes, inputs, i);
    FlatLength(PrevoutBytes, inputs, 36);
    FlatLength(PrevoutBytes, inputs[..i], 36);
    FlatLength(SequenceBytes, inputs, 4);
    FlatLength(SequenceBytes, inputs[..i], 4);
    var hp := Flat(PrevoutBytes, inputs);
    assert hp[36 * i..36 * i + 36] == inputs[i].txid + LE(inputs[i].vout, 4);
    assert hp[36 * i..36 * i + 36][..32] == hp[36 * i..36 * i + 32];
    assert hp[36 * i..36 * i + 36][32..] == hp[36 * i + 32..36 * i + 36];
  }

  // ---------------------------------------------------------------- theorems

  lemma PrevoutPrefixFree(a: TxInput, b: TxInput, x: seq<byte>, y: seq<byte>)
    requires PrevoutBytes(a) + x == PrevoutBytes(b) + y
    ensures a.txid == b.txid && a.vout == b.vout && x == y
  {
    SameCut(PrevoutBytes(a), PrevoutBytes(b), x, y);
    SameCut(a.txid, b.txid, LE(a.vout, 4), LE(b.vout, 4));
    Widths();
    LEInjective(a.vout, b.vout, 4);
  }

  lemma {:induction false} PrevoutsInjective(xs: seq<TxInput>, ys: seq<TxInput>)
    requires Flat(PrevoutBytes, xs) == Flat(PrevoutBytes, ys)
    ensures |xs| == |ys| && forall i :: 0 <= i < |xs| ==> xs[i].txid == ys[i].txid && xs[i].vout == ys[i].vout
  {
    if xs != [] && ys != [] {
      PrevoutPrefixFree(xs[0], ys[0], Flat(PrevoutBytes, xs[1..]), Flat(PrevoutBytes, ys[1..]));
      PrevoutsInjective(xs[1..], ys[1..]);
      forall i | 0 <= i < |xs| ensures xs[i].txid == ys[i].txid && xs[i].vout == ys[i].vout {
        if i > 0 { assert xs[i] == xs[1..][i - 1] && ys[i] == ys[1..][i - 1]; }
      }
    }
  }

  lemma {:induction false} SequencesInjective(xs: seq<TxInput>, ys: seq<TxInput>)
    requires |xs| == |ys| && Flat(SequenceBytes, xs) == Flat(SequenceBytes, ys)
    ensures forall i :: 0 <= i < |xs| ==> xs[i].sequence == ys[i].sequence
  {
    if xs != [] {
      Widths();
      SameCut(SequenceBytes(xs[0]), SequenceBytes(ys[0]), Flat(SequenceBytes, xs[1..]), Flat(SequenceBytes, ys[1..]));
      LEInjective(xs[0].sequence, ys[0].sequence, 4);
      SequencesInjective(xs[1..], ys[1..]);
      forall i | 0 <= i < |xs| ensures xs[i].sequence == ys[i].sequence {
        if i > 0 { assert xs[i] == xs[1..][i - 1] && ys[i] == ys[1..][i - 1]; }
      }
    }
  }

  lemma SameAmount(x: SpentUtxo, y: SpentUtxo)
    requires AmountBytes(x) == AmountBytes(y)
    ensures x.amount == y.amount
  {
    Widths();
    LEInjective(U64(x.amount), U64(y.amount), 8);
  }

  lemma {:induction false} SpentInjective(xs: seq<SpentUtxo>, ys: seq<SpentUtxo>)
    requires |xs| == |ys|
    requires Flat(AmountBytes, xs) == Flat(AmountBytes, ys) && Flat(SpentScriptBytes, xs) == Flat(SpentScriptBytes, ys)
    ensures xs == ys
  {
    hide LE, Compact, ScriptBytes, U64;
    if xs != [] {
      Widths();
      hide Pow256;
      SameCut(AmountBytes(xs[0]), AmountBytes(ys[0]), Flat(AmountBytes, xs[1..]), Flat(AmountBytes, ys[1..]));
      ScriptPrefixFree(xs[0].script, ys[0].script, Flat(SpentScriptBytes, xs[1..]), Flat(SpentScriptBytes, ys[1..]));
      SameAmount(xs[0], ys[0]);
      SpentInjective(xs[1..], ys[1..]);
      assert xs == [xs[0]] + xs[1..] && ys == [ys[0]] + ys[1..];
    }
  }

  /** `sha` does not happen to confuse these two strings. */
  predicate NoClash(sha: Hash, x: seq<byte>, y: seq<byte>) { sha(x) == sha(y) ==> x == y }

  /** No collision among the six strings that the two computations hash. */
  predicate NoCollision(sha: Hash, p: SpendParams, q: SpendParams) {
    && NoClash(sha, Prevouts(p), Prevouts(q)) && NoClash(sha, Amounts(p), Amounts(q))
    && NoClash(sha, Scripts(p), Scripts(q)) && NoClash(sha, Sequences(p), Sequences(q))
    && NoClash(sha, Outs(p), Outs(q)) && NoClash(sha, Message(sha, p), Message(sha, q))
  }

  lemma MessageParts(sha: Hash, p: SpendParams, q: SpendParams)
    requires Message(sha, p) == Message(sha, q)
    ensures Heads(p) == Heads(q) && Inner(sha, p) == Inner(sha, q) && LE(p.index, 4) == LE(q.index, 4)
  {
    var t := sha(TAG) + sha(TAG) + [0x00, 0x01];
    SameCut(t + Heads(p) + Inner(sha, p), t + Heads(q) + Inner(sha, q), LE(p.index, 4), LE(q.index, 4));
    SameCut(t + Heads(p), t + Heads(q), Inner(sha, p), Inner(sha, q));
    SameCut(t, t, Heads(p), Heads(q));
  }

  lemma InnerParts(sha: Hash, p: SpendParams, q: SpendParams)
    requires Inner(sha, p) == Inner(sha, q)
    ensures sha(Prevouts(p)) == sha(Prevouts(q)) && sha(Amounts(p)) == sha(Amounts(q)) && sha(Scripts(p)) == sha(Scripts(q))
         && sha(Sequences(p)) == sha(Sequences(q)) && sha(Outs(p)) == sha(Outs(q))
  {
    var a: seq<byte>, b: seq<byte>, c: seq<byte>, d: seq<byte> := sha(Prevouts(p)), sha(Amounts(p)), sha(Scripts(p)), sha(Sequences(p));
    var a': seq<byte>, b': seq<byte>, c': seq<byte>, d': seq<byte> := sha(Prevouts(q)), sha(Amounts(q)), sha(Scripts(q)), sha(Sequences(q));
    SameCut(a + b + c + d, a' + b' + c' + d', sha(Outs(p)), sha(Outs(q)));
    SameCut(a + b + c, a' + b' + c', d, d');
    SameCut(a + b, a' + b', c, c');
    SameCut(a, a', b, b');
  }

  lemma HeadsInjective(p: SpendParams, q: SpendParams)
    requires Heads(p) == Heads(q)
    ensures p.core.version == q.core.version && p.core.lockTime == q.core.lockTime
  {
    SameCut(VersionBytes(p.core), VersionBytes(q.core), LockBytes(p.core), LockBytes(q.core));
    VersionInjective(p.core, q.core);
    LockInjective(p.core, q.core);
  }

  /** Barring a collision of SHA-256, the digest fixes version, lock time, previous
      outputs, their amounts and scripts, sequences, outputs and the input's position:
      two digests are equal exactly when all of these are. */
  lemma SighashCommits(sha: Hash, p: SpendParams, q: SpendParams)
    requires SighashOf(sha, p).Ok? && SighashOf(sha, q).Ok?
    requires NoCollision(sha, p, q)
    ensures SighashOf(sha, p) == SighashOf(sha, q) <==> p == q
  {
    hide Message, Inner, Heads, Prevouts, Amounts, Scripts, Sequences, Outs;
    if SighashOf(sha, p) == SighashOf(sha, q) {
      MessageParts(sha, p, q);
      HeadsInjective(p, q);
      InnerParts(sha, p, q);
      ListsInjective(p, q);
      Widths();
      LEInjective(p.index, q.index, 4);
    }
  }

  lemma ListsInjective(p: SpendParams, q: SpendParams)
    requires |p.core.inputs| == |p.spent| && |q.core.inputs| == |q.spent|
    requires Prevouts(p) == Prevouts(q) && Amounts(p) == Amounts(q) && Scripts(p) == Scripts(q)
    requires Sequences(p) == Sequences(q) && Outs(p) == Outs(q)
    ensures p.core.inputs == q.core.inputs && p.spent == q.spent && p.core.outputs == q.core.outputs
  {
    hide Flat;
    PrevoutsInjective(p.core.inputs, q.core.inputs);
    SequencesInjective(p.core.inputs, q.core.inputs);
    SpentInjective(p.spent, q.spent);
    AllPrefixFree();
    FlatInjective(OutputBytes, p.core.outputs, q.core.outputs);
  }

  /** The inputs of one transaction sign different digests. */
  lemma InputsSignDifferently(sha: Hash, p: SpendParams, i: uint32, j: uint32)
    requires i < |p.core.inputs| && j < |p.core.inputs| && |p.core.inputs| == |p.spent| && i != j
    requires NoClash(sha, Message(sha, p.(index := i)), Message(sha, p.(index := j)))
    ensures SighashOf(sha, p.(index := i)) != SighashOf(sha, p.(index := j))
  {
    SighashCommits(sha, p.(index := i), p.(index := j));
  }
}
