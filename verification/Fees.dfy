/** Fee planning of internal/txbuilder/txbuilder.go. */
module Fees {
  import opened Common
  import opened Bytes
  import opened Transaction
  import VirtualSize

  datatype FeeError =
    | NonPositiveRate
    | NonPositiveSize
    | FeeOverflow
    | NonPositiveTotal
    | SendNotCovered
    | EmptyScript
    | BadShape(reason: VirtualSize.SizeError)
    | InsufficientFunds

  datatype FeePlan = FeePlan(fee: int64, change: int64, vsize: int64, includeChange: bool)

  datatype WithdrawPlan = WithdrawPlan(send: int64, fee: int64, vsize: int64)

  function FeeForRate(rate: int64, vsize: int64): (r: Result<int64, FeeError>)
    ensures r.Ok? ==> r.value > 0
  {
    if rate <= 0 then Err(NonPositiveRate)
    else if vsize <= 0 then Err(NonPositiveSize)
    else if rate > (MAX_INT64 - 999) / vsize then Err(FeeOverflow)
    else
      RateFits(rate, vsize);
      MulMonotone(1, rate, vsize);
      Ok((rate * vsize + 999) / 1000)
  }

  /** The guard is exactly the absence of int64 overflow in the product. */
  lemma RateFits(rate: int, vsize: int)
    requires rate > 0 && vsize > 0
    ensures rate > (MAX_INT64 - 999) / vsize <==> rate * vsize + 999 > MAX_INT64
  {
    var q := (MAX_INT64 - 999) / vsize;
    assert q * vsize <= MAX_INT64 - 999 < (q + 1) * vsize;
    if rate > q {
      MulMonotone(q + 1, rate, vsize);
    } else {
      MulMonotone(rate, q, vsize);
    }
  }

  lemma MulMonotone(x: int, y: int, z: int)
    requires x <= y && 0 <= z
    ensures x * z <= y * z
  {
  }

  /** A fee covers its rate, and one satoshi less would not. */
  lemma FeeIsCeiling(rate: int64, vsize: int64)
    requires FeeForRate(rate, vsize).Ok?
    ensures var fee := FeeForRate(rate, vsize).value;
            0 < fee && (fee - 1) * 1000 < rate * vsize <= fee * 1000
  {
    MulMonotone(1, rate, vsize);
  }

  /** There is a fee exactly when rate and size are positive and nothing overflows. */
  lemma FeeExistsIff(rate: int64, vsize: int64)
    ensures FeeForRate(rate, vsize).Ok? <==> rate > 0 && vsize > 0 && rate * vsize + 999 <= MAX_INT64
  {
    if rate > 0 && vsize > 0 { RateFits(rate, vsize); }
  }

  const CHANGE_SCRIPT: Script := [0, 0, 0, 0, 0, 0, 0, 0, 0, 0, 0, 0, 0, 0, 0, 0, 0, 0, 0, 0, 0, 0, 0, 0, 0, 0, 0, 0, 0, 0, 0, 0, 0, 0]

  function OneOutput(send: int64, script: Script): Outputs { [TxOutput(send, script)] }

  function WithChange(send: int64, script: Script): Outputs { [TxOutput(send, script), TxOutput(0, CHANGE_SCRIPT)] }

  function ShapeFee(rate: int64, inputCount: int64, outputs: Outputs): (r: Result<(int64, int64), FeeError>)
    ensures r.Ok? ==> r.value.1 > 0
  {
    hide FeeForRate, VirtualSize.Size;
    match VirtualSize.Size(inputCount, outputs)
    case Err(e) => Err(BadShape(e))
    case Ok(vsize) =>
      match FeeForRate(rate, vsize)
      case Err(e) => Err(e)
      case Ok(fee) => Ok((vsize, fee))
  }

  function PlanFee(total: int64, send: int64, rate: int64, inputCount: int64, script: Script): Result<FeePlan, FeeError> {
    hide ShapeFee;
    if total <= 0 then Err(NonPositiveTotal)
    else if send <= 0 || send > total then Err(SendNotCovered)
    else if script == [] then Err(EmptyScript)
    else
      match ShapeFee(rate, inputCount, OneOutput(send, script))
      case Err(e) => Err(e)
      case Ok((vsize, minimum)) =>
        var remainder := total - send;
        if remainder < minimum then Err(InsufficientFunds)
        else
          match ShapeFee(rate, inputCount, WithChange(send, script))
          case Err(e) => Err(e)
          case Ok((changeVsize, changeFee)) =>
            if remainder > changeFee then Ok(FeePlan(changeFee, remainder - changeFee, changeVsize, true))
            else Ok(FeePlan(remainder, 0, vsize, false))
  }

  function PlanWithdrawAll(total: int64, rate: int64, inputCount: int64, script: Script): Result<WithdrawPlan, FeeError> {
    hide ShapeFee;
    if total <= 0 then Err(NonPositiveTotal)
    else if script == [] then Err(EmptyScript)
    else
      match ShapeFee(rate, inputCount, OneOutput(0, script))
      case Err(e) => Err(e)
      case Ok((vsize, fee)) =>
        if total <= fee then Err(InsufficientFunds) else Ok(WithdrawPlan(total - fee, fee, vsize))
  }

  // ---------------------------------------------------------------- theorems

  /** The outputs a plan stands for, change paid to any 34-byte script. */
  function PlanOutputs(plan: FeePlan, send: int64, script: Script, change: Script): Outputs {
    if plan.includeChange then [TxOutput(send, script), TxOutput(plan.change, change)] else [TxOutput(send, script)]
  }

  lemma SizeIgnoresAmounts(inputCount: int64, xs: Outputs, ys: Outputs)
    requires |xs| == |ys| && NonNegative(xs) && NonNegative(ys)
    requires forall i :: 0 <= i < |xs| ==> |xs[i].script| == |ys[i].script|
    ensures VirtualSize.Size(inputCount, xs) == VirtualSize.Size(inputCount, ys)
  {
    LenIgnoresAmounts(xs, ys);
  }

  lemma {:induction false} LenIgnoresAmounts(xs: seq<TxOutput>, ys: seq<TxOutput>)
    requires |xs| == |ys| && forall i :: 0 <= i < |xs| ==> |xs[i].script| == |ys[i].script|
    ensures VirtualSize.OutputsLen(xs) == VirtualSize.OutputsLen(ys)
  {
    if xs != [] {
      LenIgnoresAmounts(xs[..|xs| - 1], ys[..|ys| - 1]);
    }
  }

  /** A plan conserves value, has a change output exactly when change is positive,
      and pays at least the rate for the size of the shape it stands for. It gives change
      exactly when more than the ceiling for the shape with change is left, pays just that
      ceiling then, and never more than that. */
  lemma PlanSound(total: int64, send: int64, rate: int64, inputCount: int64, script: Script, change: Script)
    requires |change| == 34
    requires PlanFee(total, send, rate, inputCount, script).Ok?
    ensures var plan := PlanFee(total, send, rate, inputCount, script).value;
            && total == send + plan.fee + plan.change
            && plan.fee > 0 && plan.change >= 0 && (plan.includeChange <==> plan.change > 0)
            && VirtualSize.Size(inputCount, PlanOutputs(plan, send, script, change)) == Ok(plan.vsize)
            && rate * plan.vsize <= plan.fee * 1000
    ensures var plan := PlanFee(total, send, rate, inputCount, script).value;
            && VirtualSize.Size(inputCount, WithChange(send, script)).Ok?
            && var w := VirtualSize.Size(inputCount, WithChange(send, script)).value;
            && (plan.includeChange <==> rate * w <= (total - send - 1) * 1000)
            && (plan.includeChange ==> plan.vsize == w)
            && (plan.fee - 1) * 1000 < rate * w
  {
    hide VirtualSize.Size, FeeForRate;
    var plan := PlanFee(total, send, rate, inputCount, script).value;
    var (vsize, minimum) := ShapeFee(rate, inputCount, OneOutput(send, script)).value;
    var (changeVsize, changeFee) := ShapeFee(rate, inputCount, WithChange(send, script)).value;
    FeeIsCeiling(rate, vsize);
    FeeIsCeiling(rate, changeVsize);
    if plan.includeChange {
      SizeIgnoresAmounts(inputCount, PlanOutputs(plan, send, script, change), WithChange(send, script));
    }
  }

  /** Exactly when there is a plan, for every size and rate. */
  lemma PlanExistsIff(total: int64, send: int64, rate: int64, inputCount: int64, script: Script)
    ensures var one, two := VirtualSize.Size(inputCount, OneOutput(send, script)), VirtualSize.Size(inputCount, WithChange(send, script));
            PlanFee(total, send, rate, inputCount, script).Ok? <==>
              && 0 < send && script != [] && rate > 0 && one.Ok? && two.Ok? && one.value > 0 && two.value > 0
              && rate * one.value + 999 <= MAX_INT64 && rate * two.value + 999 <= MAX_INT64
              && rate * one.value <= (total - send) * 1000
  {
    hide VirtualSize.Size, FeeForRate;
    var one, two := VirtualSize.Size(inputCount, OneOutput(send, script)), VirtualSize.Size(inputCount, WithChange(send, script));
    if one.Ok? {
      FeeExistsIff(rate, one.value);
      if FeeForRate(rate, one.value).Ok? {
        FeeIsCeiling(rate, one.value);
        MulMonotone(1, rate, one.value);
      }
    }
    if two.Ok? { FeeExistsIff(rate, two.value); }
  }

  /** "Insufficient funds" means that the fee without change is known and not covered. */
  lemma InsufficientMeans(total: int64, send: int64, rate: int64, inputCount: int64, script: Script)
    ensures var one := VirtualSize.Size(inputCount, OneOutput(send, script));
            PlanFee(total, send, rate, inputCount, script) == Err(InsufficientFunds) <==>
              && 0 < send <= total && script != [] && rate > 0 && one.Ok? && one.value > 0
              && rate * one.value + 999 <= MAX_INT64 && rate * one.value > (total - send) * 1000
  {
    hide VirtualSize.Size, FeeForRate;
    var one, two := VirtualSize.Size(inputCount, OneOutput(send, script)), VirtualSize.Size(inputCount, WithChange(send, script));
    FeeNeverInsufficient(rate, if two.Ok? then two.value else 1);
    FeeNeverInsufficient(rate, if one.Ok? then one.value else 1);
    if one.Ok? {
      FeeExistsIff(rate, one.value);
      if FeeForRate(rate, one.value).Ok? { FeeIsCeiling(rate, one.value); }
    }
  }

  lemma FeeNeverInsufficient(rate: int64, vsize: int64)
    ensures FeeForRate(rate, vsize) != Err(InsufficientFunds)
  {
  }

  /** Exactly when an address can be swept. */
  lemma WithdrawExistsIff(total: int64, rate: int64, inputCount: int64, script: Script)
    ensures var one := VirtualSize.Size(inputCount, OneOutput(0, script));
            PlanWithdrawAll(total, rate, inputCount, script).Ok? <==>
              && script != [] && rate > 0 && one.Ok? && one.value > 0 && rate * one.value + 999 <= MAX_INT64
              && rate * one.value <= (total - 1) * 1000
  {
    hide VirtualSize.Size, FeeForRate;
    var one := VirtualSize.Size(inputCount, OneOutput(0, script));
    if one.Ok? {
      FeeExistsIff(rate, one.value);
      if FeeForRate(rate, one.value).Ok? {
        FeeIsCeiling(rate, one.value);
        MulMonotone(1, rate, one.value);
      }
    }
  }

  /** On the bytes: a transaction signed for a plan pays at least its rate for the
      BIP-141 size that it really has. */
  lemma PlanPaysForBytes(total: int64, send: int64, rate: int64, script: Script, change: Script, tx: SignedTx)
    requires |change| == 34 && Serialize(tx).Ok?
    requires PlanFee(total, send, rate, |tx.core.inputs|, script).Ok?
    requires tx.core.outputs == PlanOutputs(PlanFee(total, send, rate, |tx.core.inputs|, script).value, send, script, change)
    requires 3 * |Stripped(tx.core)| + |Serialize(tx).value| + 3 <= MAX_INT64
    ensures var vbytes := (3 * |Stripped(tx.core)| + |Serialize(tx).value| + 3) / 4;
            rate * vbytes <= PlanFee(total, send, rate, |tx.core.inputs|, script).value.fee * 1000
  {
    PlanSound(total, send, rate, |tx.core.inputs|, script, change);
    VirtualSize.SizeExact(tx);
  }

  lemma WithdrawTotals(total: int64, rate: int64, inputCount: int64, script: Script)
    requires PlanWithdrawAll(total, rate, inputCount, script).Ok?
    ensures var plan := PlanWithdrawAll(total, rate, inputCount, script).value;
            total == plan.send + plan.fee && plan.send > 0 && plan.fee > 0
  {
    hide ShapeFee;
  }

  /** Sweeping a total leaves nothing: the one output and the exact fee make it up. */
  lemma WithdrawSound(total: int64, rate: int64, inputCount: int64, script: Script)
    requires PlanWithdrawAll(total, rate, inputCount, script).Ok?
    ensures var plan := PlanWithdrawAll(total, rate, inputCount, script).value;
            && total == plan.send + plan.fee && plan.send > 0
            && VirtualSize.Size(inputCount, OneOutput(plan.send, script)) == Ok(plan.vsize)
            && (plan.fee - 1) * 1000 < rate * plan.vsize <= plan.fee * 1000
  {
    var plan := PlanWithdrawAll(total, rate, inputCount, script).value;
    FeeIsCeiling(rate, plan.vsize);
    SizeIgnoresAmounts(inputCount, OneOutput(plan.send, script), OneOutput(0, script));
  }

  // ------------------------------------------------- when a plan exists, in numbers

  const SAFE_MAX_INPUTS: int := 22

  /** BIP-141 size of one output and of the change shape for up to 22 inputs. */
  function NoChangeSize(n: int, script: Script): int { (17289 * n + 4 * OneLen(script) + 45) / 4 }
  function ChangeSize(n: int, script: Script): int { (17289 * n + 4 * (OneLen(script) + 43) + 45) / 4 }
  function OneLen(script: Script): int { 8 + CompactLen(|script|) + |script| }

  /** The least fee for `n` inputs and no change. */
  function MinFee(rate: int, n: int, script: Script): int { (rate * NoChangeSize(n, script) + 999) / 1000 }

  /** The weight of 22 inputs, change and this script fits int64. */
  predicate WeightFits(script: Script) { 17289 * 22 + 4 * (OneLen(script) + 43) + 45 <= MAX_INT64 }

  /** No size and no fee of a selection of at most 22 inputs leaves int64. */
  predicate FeesFit(rate: int64, script: Script) {
    && rate > 0 && script != []
    && WeightFits(script)
    && rate * ChangeSize(22, script) + 999 <= MAX_INT64
  }

  lemma ShapeSizes(n: int64, send: int64, script: Script)
    requires 1 <= n <= 22 && send >= 0 && WeightFits(script)
    ensures VirtualSize.Size(n, OneOutput(send, script)) == Ok(NoChangeSize(n, script))
    ensures VirtualSize.Size(n, WithChange(send, script)) == Ok(ChangeSize(n, script))
  {
    ShapeLengths(send, script);
    hide VirtualSize.OutputsLen;
  }

  lemma ShapeLengths(send: int64, script: Script)
    ensures VirtualSize.OutputsLen(OneOutput(send, script)) == OneLen(script)
    ensures VirtualSize.OutputsLen(WithChange(send, script)) == OneLen(script) + 43
  {
    var one, two := OneOutput(send, script), WithChange(send, script);
    assert one[..0] == [] && two[..1] == one;
  }

  lemma ShapeFees(rate: int64, n: int64, send: int64, script: Script)
    requires FeesFit(rate, script) && 1 <= n <= 22 && send >= 0
    ensures ShapeFee(rate, n, OneOutput(send, script)) == Ok((NoChangeSize(n, script), MinFee(rate, n, script)))
    ensures ShapeFee(rate, n, WithChange(send, script)).Ok?
  {
    ShapeSizes(n, send, script);
    RateMonotone(rate, NoChangeSize(n, script), ChangeSize(22, script));
    RateMonotone(rate, ChangeSize(n, script), ChangeSize(22, script));
    RateFits(rate, NoChangeSize(n, script));
    RateFits(rate, ChangeSize(n, script));
  }

  lemma RateMonotone(rate: int, v: int, w: int)
    requires 0 <= rate && v <= w
    ensures rate * v <= rate * w
  {
  }

  /** A plan exists exactly when the total covers the amount and the least fee. */
  lemma PlanIff(total: int64, send: int64, rate: int64, n: int64, script: Script)
    requires FeesFit(rate, script) && 1 <= n <= 22 && send > 0
    ensures PlanFee(total, send, rate, n, script).Ok? <==> total - send >= MinFee(rate, n, script)
  {
    ShapeFees(rate, n, send, script);
  }

  // --------------------------------------------------------- standard transactions

  datatype StandardError = TooManyInputs | Unsized(reason: VirtualSize.SizeError) | TooLarge

  const MAX_STANDARD_VSIZE: int := 100_000

  /** ValidateP2QPKStandardTransaction. */
  function ValidateStandard(inputCount: int64, outputs: Outputs): Result<int64, StandardError> {
    if inputCount > SAFE_MAX_INPUTS then Err(TooManyInputs)
    else
      match VirtualSize.Size(inputCount, outputs)
      case Err(e) => Err(Unsized(e))
      case Ok(vsize) => if vsize > MAX_STANDARD_VSIZE then Err(TooLarge) else Ok(vsize)
  }

  /** The 22-input ceiling keeps every plan standard, with or without change, for
      every destination script up to 4846 bytes, and for no longer one whose weight
      fits int64. */
  lemma CeilingKeepsStandard(script: Script)
    requires script != []
    ensures |script| <= 4846 ==> WeightFits(script) && forall n: int64, send: int64 :: 1 <= n <= SAFE_MAX_INPUTS && send >= 0 ==>
              ValidateStandard(n, OneOutput(send, script)).Ok? && ValidateStandard(n, WithChange(send, script)).Ok?
    ensures 4846 < |script| && WeightFits(script) ==> ValidateStandard(22, WithChange(0, script)) == Err(TooLarge)
  {
    if |script| <= 4846 {
      forall n: int64, send: int64 | 1 <= n <= SAFE_MAX_INPUTS && send >= 0
        ensures ValidateStandard(n, OneOutput(send, script)).Ok? && ValidateStandard(n, WithChange(send, script)).Ok?
      {
        ShapeSizes(n, send, script);
      }
    } else if WeightFits(script) {
      ShapeSizes(22, 0, script);
    }
  }

  /** A weight that wraps is taken for a small one: 2^61 bytes pass as standard. */
  lemma HugeScriptPasses(script: Script)
    requires |script| == 0x2000_0000_0000_0000
    ensures !WeightFits(script) && ValidateStandard(22, WithChange(0, script)).Ok?
  {
    ShapeLengths(0, script);
  }
}
