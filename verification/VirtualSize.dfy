/** P2QPKVirtualSize of internal/txbuilder/txbuilder.go: a closed form that must
    equal the BIP-141 size of the bytes the serializer writes. */
module VirtualSize {
  import opened Common
  import opened Bytes
  import opened Transaction

  datatype SizeError = NonPositiveInputs | NoOutputs | NegativeOutput

  /** Go's integer division by four. */
  function Quarter(x: int): int { if x >= 0 then x / 4 else -(-x / 4) }

  /** It truncates toward zero, also for a weight that has wrapped. */
  lemma QuarterTruncates(x: int)
    ensures var rest := x - 4 * Quarter(x);
            -3 <= rest <= 3 && (x >= 0 ==> rest >= 0) && (x <= 0 ==> rest <= 0)
  {
  }

  function OutputsLen(outputs: seq<TxOutput>): int {
    if outputs == [] then 0
    else OutputsLen(outputs[..|outputs| - 1]) + OutputLen(outputs[|outputs| - 1])
  }

  function OutputLen(o: TxOutput): int { 8 + CompactLen(|o.script|) + |o.script| }

  /** marker and flag count once, like the witnesses; the rest counts four times. */
  function Weight(inputCount: uint64, outputs: Outputs): int {
    4 * (4 + CompactLen(inputCount) + inputCount * 41 + CompactLen(|outputs|) + 4 + OutputsLen(outputs))
    + 2 + inputCount * 17125
  }

  function Size(inputCount: int64, outputs: Outputs): Result<int64, SizeError> {
    if inputCount <= 0 then Err(NonPositiveInputs)
    else if outputs == [] then Err(SizeError.NoOutputs)
    else if !NonNegative(outputs) then Err(NegativeOutput)
    else Ok(Quarter(Wrap64(Weight(inputCount, outputs) + 3)))
  }

  method P2QPKVirtualSize(inputCount: int64, outputs: Outputs) returns (r: Result<int64, SizeError>)
    ensures r == Size(inputCount, outputs)
  {
    if inputCount <= 0 {
      return Err(NonPositiveInputs);
    }
    if |outputs| == 0 {
      return Err(SizeError.NoOutputs);
    }
    var start := 4 + CompactLen(inputCount) + inputCount * 41 + CompactLen(|outputs|) + 4;
    var stripped := Wrap64(start);
    for i := 0 to |outputs|
      invariant NonNegative(outputs[..i])
      invariant stripped == Wrap64(start + OutputsLen(outputs[..i]))
    {
      if outputs[i].amount < 0 {
        return Err(NegativeOutput);
      }
      assert outputs[..i + 1][..i] == outputs[..i];
      WrapSum(start + OutputsLen(outputs[..i]), OutputLen(outputs[i]));
      stripped := Wrap64(stripped + (8 + CompactLen(|outputs[i].script|) + |outputs[i].script|));
    }
    assert outputs[..|outputs|] == outputs;
    r := Ok(CombineSize(inputCount, stripped, start + OutputsLen(outputs)));
  }

  /** The last lines of P2QPKVirtualSize, from the wrapped witness-free length. */
  function CombineSize(inputCount: int64, stripped: int64, ghost exact: int): (size: int64)
    requires inputCount > 0 && stripped == Wrap64(exact)
    ensures size == Quarter(Wrap64(4 * exact + 2 + inputCount * 17125 + 3))
  {
    var witnessPerInput := 1 + CompactLen(SIG_LEN) + SIG_LEN + CompactLen(PK_LEN) + PK_LEN;
    var witnesses := Wrap64(2 + inputCount * witnessPerInput);
    WrapTimesFour(exact);
    WrapSums(4 * exact, 2 + inputCount * witnessPerInput);
    var weight := Wrap64(Wrap64(stripped * 4) + witnesses);
    WrapSum(4 * exact + 2 + inputCount * witnessPerInput, 3);
    Quarter(Wrap64(weight as int + 3))
  }

  lemma WrapSums(x: int, y: int)
    ensures Wrap64(Wrap64(x) + Wrap64(y)) == Wrap64(x + y)
  {
    hide Wrap64;
    WrapSum(x, Wrap64(y));
    WrapSum(y, x);
  }

  lemma WrapTimesFour(x: int)
    ensures Wrap64(Wrap64(x) * 4) == Wrap64(4 * x)
  {
    var k := WrapMoves(x);
    WrapShift(Wrap64(x) * 4, 4 * k);
  }

  // ---------------------------------------------------------------- theorems

  /** A size is refused exactly for no inputs, no outputs or a negative amount. */
  lemma SizedIff(inputCount: int64, outputs: Outputs)
    ensures Size(inputCount, outputs).Ok? <==> inputCount > 0 && outputs != [] && forall i :: 0 <= i < |outputs| ==> outputs[i].amount >= 0
  {
  }

  lemma {:induction false} OutputsLenFlat(outputs: seq<TxOutput>)
    ensures |Flat(OutputBytes, outputs)| == OutputsLen(outputs)
  {
    if outputs != [] {
      var init := outputs[..|outputs| - 1];
      var last := outputs[|outputs| - 1];
      OutputsLenFlat(init);
      FlatAppend(OutputBytes, init, last);
      assert outputs == init + [last];
    }
  }

  /** Three times the witness-free length plus the whole length is the weight. */
  lemma WeightOfBytes(tx: SignedTx)
    requires Serialize(tx).Ok?
    ensures 3 * |Stripped(tx.core)| + |Serialize(tx).value| == Weight(|tx.core.inputs|, tx.core.outputs)
  {
    OutputsLenFlat(tx.core.outputs);
    FlatLength(InputBytes, tx.core.inputs, 41);
    WitnessErrorNone(tx.witnesses);
    forall i | 0 <= i < |tx.witnesses|
      ensures |WitnessBytes(tx.witnesses[i])| == 17125
    {
      assert GoodWitness(tx.witnesses[i]);
    }
    FlatLength(WitnessBytes, tx.witnesses, 17125);
  }

  /** The closed form is the rounded-up quarter of the weight of the real bytes,
      exactly as long as that weight fits the arithmetic. */
  lemma SizeExact(tx: SignedTx)
    requires Serialize(tx).Ok?
    ensures var weight := 3 * |Stripped(tx.core)| + |Serialize(tx).value|;
            var size := Size(|tx.core.inputs|, tx.core.outputs);
            size.Ok? && (size.value == (weight + 3) / 4 <==> weight + 3 <= MAX_INT64)
  {
    WeightOfBytes(tx);
    SizeIff(|tx.core.inputs|, tx.core.outputs);
  }

  lemma SizeIff(inputCount: int64, outputs: Outputs)
    requires inputCount > 0 && outputs != [] && NonNegative(outputs)
    ensures Size(inputCount, outputs).Ok?
    ensures Size(inputCount, outputs).value == (Weight(inputCount, outputs) + 3) / 4 <==> Weight(inputCount, outputs) + 3 <= MAX_INT64
  {
    WeightPositive(inputCount, outputs);
  }

  lemma {:induction false} OutputsLenPositive(outputs: seq<TxOutput>)
    ensures OutputsLen(outputs) >= 9 * |outputs|
  {
    if outputs != [] {
      OutputsLenPositive(outputs[..|outputs| - 1]);
    }
  }

  lemma WeightPositive(inputCount: uint64, outputs: Outputs)
    requires inputCount > 0
    ensures Weight(inputCount, outputs) > 17125
  {
    OutputsLenPositive(outputs);
  }
}
