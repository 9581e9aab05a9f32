/** The two coin selectors of internal/txbuilder/txbuilder.go: what they pick, and
    exactly when "insufficient funds" is the right answer. */
module Selection {
  import opened Common
  import opened Transaction
  import opened Coins
  import opened Fees

  datatype SelectError =
    | NonPositiveSend
    | NonPositiveRate
    | EmptyScript
    | BadCoins(reason: CoinError)
    | TotalOverflow
    | NoPlan(fee: FeeError)
    | InsufficientFunds

  datatype Picked = Picked(selected: seq<Coin>, unselected: seq<Coin>, selectedTotal: int64, unselectedTotal: int64)

  /** A Go slice of coins that have passed the positivity check. */
  predicate Positive(coins: seq<Coin>) {
    |coins| < TWO_63 && forall i :: 0 <= i < |coins| ==> coins[i].amount > 0
  }

  function Sum(coins: seq<Coin>): int {
    if coins == [] then 0 else Sum(coins[..|coins| - 1]) + coins[|coins| - 1].amount
  }

  lemma {:induction false} SumConcat(a: seq<Coin>, b: seq<Coin>)
    ensures Sum(a + b) == Sum(a) + Sum(b)
    decreases |b|
  {
    if b == [] {
      assert a + b == a;
    } else {
      SumConcat(a, b[..|b| - 1]);
      assert (a + b)[..|a + b| - 1] == a + b[..|b| - 1];
    }
  }

  lemma {:induction false} SumNonNegative(coins: seq<Coin>)
    requires Positive(coins)
    ensures Sum(coins) >= |coins|
  {
    if coins != [] { SumNonNegative(coins[..|coins| - 1]); }
  }

  // ------------------------------------------------------ buildP2QPKCoinSelection

  /** The coins whose key is not among the chosen ones. */
  function Without(all: seq<Coin>, chosen: set<string>): seq<Coin> {
    if all == [] then []
    else
      var rest := Without(all[..|all| - 1], chosen);
      if Key(all[|all| - 1]) in chosen then rest else rest + [all[|all| - 1]]
  }

  function Keys(coins: seq<Coin>): set<string> { set i | 0 <= i < |coins| :: Key(coins[i]) }

  function Build(all: seq<Coin>, selected: seq<Coin>): Result<Picked, SelectError>
    requires Positive(all) && Positive(selected)
  {
    var rest := Without(all, Keys(selected));
    WithoutPositive(all, Keys(selected));
    SumNonNegative(selected);
    SumNonNegative(rest);
    if Sum(selected) > MAX_INT64 || Sum(rest) > MAX_INT64 then Err(TotalOverflow)
    else Ok(Picked(selected, rest, Sum(selected), Sum(rest)))
  }

  method BuildP2QPKCoinSelection(all: seq<Coin>, selected: seq<Coin>) returns (r: Result<Picked, SelectError>)
    requires Positive(all) && Positive(selected)
    ensures r == Build(all, selected)
  {
    var chosen: set<string> := {};
    var total: int64 := 0;
    for i := 0 to |selected|
      invariant chosen == Keys(selected[..i])
      invariant total == Sum(selected[..i]) && total >= 0
    {
      assert selected[..i + 1][..i] == selected[..i];
      chosen := chosen + {Key(selected[i])};
      KeysAppend(selected, i);
      if total > MAX_INT64 - selected[i].amount {
        SumMonotone(selected, i + 1, |selected|);
        assert selected[..|selected|] == selected;
        return Err(TotalOverflow);
      }
      total := total + selected[i].amount;
    }
    assert selected[..|selected|] == selected;
    var rest, restTotal := [], 0 as int64;
    for i := 0 to |all|
      invariant rest == Without(all[..i], chosen)
      invariant restTotal == Sum(rest) && 0 <= restTotal <= MAX_INT64
    {
      assert all[..i + 1][..i] == all[..i];
      if Key(all[i]) !in chosen {
        var longer := rest + [all[i]];
        assert longer[..|rest|] == rest;
        if restTotal > MAX_INT64 - all[i].amount {
          WithoutMonotone(all, i + 1, chosen);
          return Err(TotalOverflow);
        }
        restTotal := restTotal + all[i].amount;
        rest := longer;
      }
    }
    assert all[..|all|] == all;
    return Ok(Picked(selected, rest, total, restTotal));
  }

  lemma KeysAppend(coins: seq<Coin>, i: nat)
    requires i < |coins|
    ensures Keys(coins[..i + 1]) == Keys(coins[..i]) + {Key(coins[i])}
  {
    var a, b := coins[..i + 1], coins[..i];
    forall k | k in Keys(b) ensures k in Keys(a) {
      var j :| 0 <= j < |b| && Key(b[j]) == k;
      assert a[j] == b[j];
    }
    assert a[i] == coins[i];
  }

  lemma SumMonotone(coins: seq<Coin>, m: nat, n: nat)
    requires Positive(coins) && m <= n <= |coins|
    ensures Sum(coins[..m]) <= Sum(coins[..n])
  {
    SumConcat(coins[..m], coins[m..n]);
    assert coins[..n] == coins[..m] + coins[m..n];
    SumNonNegative(coins[m..n]);
  }

  lemma {:induction false} WithoutMonotone(all: seq<Coin>, n: nat, chosen: set<string>)
    requires Positive(all) && n <= |all|
    ensures Sum(Without(all[..n], chosen)) <= Sum(Without(all, chosen))
    decreases |all| - n
  {
    hide Key, Sum;
    if n < |all| {
      WithoutMonotone(all, n + 1, chosen);
      assert all[..n + 1][..n] == all[..n];
      SumConcat(Without(all[..n], chosen), [all[n]]);
      SumNonNegative([all[n]]);
    } else {
      assert all[..n] == all;
    }
  }

  lemma {:induction false} WithoutPositive(all: seq<Coin>, chosen: set<string>)
    requires Positive(all)
    ensures Positive(Without(all, chosen)) && |Without(all, chosen)| <= |all|
  {
    if all != [] { WithoutPositive(all[..|all| - 1], chosen); }
  }

  // ----------------------------------------------------------- SelectP2QPKForAmount

  function Min(a: int, b: int): int { if a <= b then a else b }

  /** The first prefix of at least `count` coins that can be planned. */
  function FirstPrefix(ordered: seq<Coin>, send: int64, rate: int64, script: Script, count: nat, limit: nat):
      (r: Result<Option<(nat, FeePlan)>, SelectError>)
    requires Positive(ordered) && 1 <= count && limit <= Min(|ordered|, SAFE_MAX_INPUTS)
    ensures r.Ok? && r.value.Some? ==> count <= r.value.value.0 <= limit
    decreases limit + 1 - count
  {
    if count > limit then Ok(None)
    else if Sum(ordered[..count]) > MAX_INT64 then Err(TotalOverflow)
    else
      SumNonNegative(ordered[..count]);
      match PlanFee(Sum(ordered[..count]), send, rate, count, script)
      case Ok(plan) => Ok(Some((count, plan)))
      case Err(_) => FirstPrefix(ordered, send, rate, script, count + 1, limit)
  }

  function Largest(ordered: seq<Coin>, n: nat): seq<Coin>
    requires n <= |ordered|
  {
    ordered[|ordered| - n..]
  }

  function TryLargest(ordered: seq<Coin>, send: int64, rate: int64, script: Script): Result<(Picked, FeePlan), SelectError>
    requires Positive(ordered)
  {
    if |ordered| <= SAFE_MAX_INPUTS then Err(SelectError.InsufficientFunds)
    else
      var largest := Largest(ordered, SAFE_MAX_INPUTS);
      if Sum(largest) > MAX_INT64 then Err(TotalOverflow)
      else
        SumNonNegative(largest);
        match PlanFee(Sum(largest), send, rate, SAFE_MAX_INPUTS, script)
        case Err(_) => Err(SelectError.InsufficientFunds)
        case Ok(plan) => WithPlan(Build(ordered, largest), plan)
  }

  function SelectOrdered(ordered: seq<Coin>, send: int64, rate: int64, script: Script): Result<(Picked, FeePlan), SelectError>
    requires Positive(ordered)
  {
    match FirstPrefix(ordered, send, rate, script, 1, Min(|ordered|, SAFE_MAX_INPUTS))
    case Err(e) => Err(e)
    case Ok(Some((count, plan))) => WithPlan(Build(ordered, ordered[..count]), plan)
    case Ok(None) => TryLargest(ordered, send, rate, script)
  }

  function SelectForAmount(coins: seq<Coin>, send: int64, rate: int64, script: Script): Result<(Picked, FeePlan), SelectError>
    requires |coins| < TWO_63
  {
    if send <= 0 then Err(NonPositiveSend)
    else if rate <= 0 then Err(SelectError.NonPositiveRate)
    else if script == [] then Err(SelectError.EmptyScript)
    else
      match Ordered(coins)
      case Err(e) => Err(BadCoins(e))
      case Ok(ordered) => OrderedPositive(coins); SelectOrdered(ordered, send, rate, script)
  }

  function WithPlan(r: Result<Picked, SelectError>, plan: FeePlan): Result<(Picked, FeePlan), SelectError> {
    match r
    case Ok(picked) => Ok((picked, plan))
    case Err(e) => Err(e)
  }

  lemma OrderedPositive(coins: seq<Coin>)
    requires Ordered(coins).Ok? && |coins| < TWO_63
    ensures Positive(Ordered(coins).value) && |Ordered(coins).value| == |coins|
  {
    OrderedSound(coins);
    var ordered := Ordered(coins).value;
    forall i | 0 <= i < |ordered| ensures ordered[i].amount > 0 {
      assert ordered[i] in multiset(coins);
    }
  }

  method SumUp(coins: seq<Coin>) returns (total: Option<int64>)
    requires Positive(coins)
    ensures total == if Sum(coins) <= MAX_INT64 then Some(Sum(coins)) else None
  {
    var sum: int64 := 0;
    for i := 0 to |coins|
      invariant sum == Sum(coins[..i]) && sum >= 0
    {
      assert coins[..i + 1][..i] == coins[..i];
      if sum > MAX_INT64 - coins[i].amount {
        SumMonotone(coins, i + 1, |coins|);
        assert coins[..|coins|] == coins;
        return None;
      }
      sum := sum + coins[i].amount;
    }
    assert coins[..|coins|] == coins;
    return Some(sum);
  }

  method SelectP2QPKForAmount(coins: seq<Coin>, send: int64, rate: int64, script: Script)
    returns (r: Result<(Picked, FeePlan), SelectError>)
    requires |coins| < TWO_63
    ensures r == SelectForAmount(coins, send, rate, script)
  {
    if send <= 0 {
      return Err(NonPositiveSend);
    }
    if rate <= 0 {
      return Err(SelectError.NonPositiveRate);
    }
    if |script| == 0 {
      return Err(SelectError.EmptyScript);
    }
    var maybeOrdered := OrderedP2QPKCoins(coins);
    if maybeOrdered.Err? {
      return Err(BadCoins(maybeOrdered.error));
    }
    hide FirstPrefix, TryLargest, Build;
    var ordered := maybeOrdered.value;
    OrderedPositive(coins);
    var prefix := SearchPrefixes(ordered, send, rate, script);
    if prefix.Err? {
      return Err(prefix.error);
    }
    if prefix.value.Some? {
      var (count, plan) := prefix.value.value;
      var picked := BuildP2QPKCoinSelection(ordered, ordered[..count]);
      return WithPlan(picked, plan);
    }
    r := SearchLargest(ordered, send, rate, script);
  }

  method SearchPrefixes(ordered: seq<Coin>, send: int64, rate: int64, script: Script)
    returns (r: Result<Option<(nat, FeePlan)>, SelectError>)
    requires Positive(ordered)
    ensures r == FirstPrefix(ordered, send, rate, script, 1, Min(|ordered|, SAFE_MAX_INPUTS))
  {
    hide PlanFee;
    var limit := |ordered|;
    if limit > SAFE_MAX_INPUTS {
      limit := SAFE_MAX_INPUTS;
    }
    var total: int64 := 0;
    for count := 1 to limit + 1
      invariant total == Sum(ordered[..count - 1]) && total >= 0
      invariant FirstPrefix(ordered, send, rate, script, 1, limit) == FirstPrefix(ordered, send, rate, script, count, limit)
    {
      assert ordered[..count][..count - 1] == ordered[..count - 1];
      if total > MAX_INT64 - ordered[count - 1].amount {
        return Err(TotalOverflow);
      }
      total := total + ordered[count - 1].amount;
      var plan := PlanFee(total, send, rate, count, script);
      if plan.Ok? {
        return Ok(Some((count, plan.value)));
      }
    }
    return Ok(None);
  }

  method SearchLargest(ordered: seq<Coin>, send: int64, rate: int64, script: Script)
    returns (r: Result<(Picked, FeePlan), SelectError>)
    requires Positive(ordered)
    ensures r == TryLargest(ordered, send, rate, script)
  {
    hide PlanFee;
    if |ordered| <= SAFE_MAX_INPUTS {
      return Err(SelectError.InsufficientFunds);
    }
    var largest := ordered[|ordered| - SAFE_MAX_INPUTS..];
    var total := SumUp(largest);
    if total.None? {
      return Err(TotalOverflow);
    }
    var plan := PlanFee(total.value, send, rate, |largest|, script);
    if plan.Err? {
      return Err(SelectError.InsufficientFunds);
    }
    var picked := BuildP2QPKCoinSelection(ordered, largest);
    return WithPlan(picked, plan.value);
  }

  // ------------------------------------------------------------- SelectP2QPKMaximum

  function SelectMaximum(coins: seq<Coin>, rate: int64, script: Script): Result<(Picked, WithdrawPlan), SelectError>
    requires |coins| < TWO_63
  {
    if rate <= 0 then Err(SelectError.NonPositiveRate)
    else if script == [] then Err(SelectError.EmptyScript)
    else
      match Ordered(coins)
      case Err(e) => Err(BadCoins(e))
      case Ok(ordered) =>
        OrderedPositive(coins);
        var limit := Min(|ordered|, SAFE_MAX_INPUTS);
        match Build(ordered, ordered[..limit])
        case Err(e) => Err(e)
        case Ok(picked) =>
          match PlanWithdrawAll(picked.selectedTotal, rate, limit, script)
          case Err(e) => Err(NoPlan(e))
          case Ok(plan) => Ok((picked, plan))
  }

  method SelectP2QPKMaximum(coins: seq<Coin>, rate: int64, script: Script) returns (r: Result<(Picked, WithdrawPlan), SelectError>)
    requires |coins| < TWO_63
    ensures r == SelectMaximum(coins, rate, script)
  {
    if rate <= 0 {
      return Err(SelectError.NonPositiveRate);
    }
    if |script| == 0 {
      return Err(SelectError.EmptyScript);
    }
    var maybeOrdered := OrderedP2QPKCoins(coins);
    if maybeOrdered.Err? {
      return Err(BadCoins(maybeOrdered.error));
    }
    hide Build, PlanWithdrawAll;
    var ordered := maybeOrdered.value;
    OrderedPositive(coins);
    var limit := |ordered|;
    if limit > SAFE_MAX_INPUTS {
      limit := SAFE_MAX_INPUTS;
    }
    var picked := BuildP2QPKCoinSelection(ordered, ordered[..limit]);
    if picked.Err? {
      return Err(picked.error);
    }
    var plan := PlanWithdrawAll(picked.value.selectedTotal, rate, limit, script);
    if plan.Err? {
      return Err(NoPlan(plan.error));
    }
    return Ok((picked.value, plan.value));
  }
}
