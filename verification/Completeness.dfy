/** What the amount selector promises: a partition of the coins whatever their
    order, and exactly when its "insufficient funds" is true. */
module Completeness {
  import opened Common
  import opened Transaction
  import opened Coins
  import opened Fees
  import opened Selection

  // ------------------------------------------------------------------- partition

  predicate KeysDiffer(coins: seq<Coin>) { forall i, j :: 0 <= i < j < |coins| ==> Key(coins[i]) != Key(coins[j]) }

  lemma OrderedFacts(coins: seq<Coin>)
    requires Ordered(coins).Ok? && |coins| < TWO_63
    ensures var ordered := Ordered(coins).value;
            Positive(ordered) && Ascending(ordered) && KeysDiffer(ordered)
            && multiset(ordered) == multiset(coins) && |ordered| == |coins|
  {
    OrderedPositive(coins);
    OrderedSound(coins);
    var ordered := Ordered(coins).value;
    SoundPermutes(coins, ordered);
    forall i, j | 0 <= i < j < |ordered| ensures Key(ordered[i]) != Key(ordered[j]) {
      KeyInjective(ordered[i], ordered[j]);
    }
  }

  lemma InWindow(all: seq<Coin>, lo: nat, hi: nat, i: nat)
    requires KeysDiffer(all) && lo <= hi <= |all| && i < |all|
    ensures Key(all[i]) in Keys(all[lo..hi]) <==> lo <= i < hi
  {
    hide Key;
    var window := all[lo..hi];
    if lo <= i < hi {
      assert window[i - lo] == all[i];
    } else {
      forall k | 0 <= k < |window| ensures Key(window[k]) != Key(all[i]) {
        assert window[k] == all[lo + k];
      }
    }
  }

  lemma {:induction false} WithoutWindow(all: seq<Coin>, lo: nat, hi: nat, n: nat)
    requires KeysDiffer(all) && lo <= hi <= |all| && n <= |all|
    ensures Without(all[..n], Keys(all[lo..hi])) ==
            if n <= lo then all[..n] else if n <= hi then all[..lo] else all[..lo] + all[hi..n]
  {
    hide Key, Keys, KeysDiffer;
    if n > 0 {
      WithoutWindow(all, lo, hi, n - 1);
      assert all[..n][..n - 1] == all[..n - 1];
      InWindow(all, lo, hi, n - 1);
    }
  }

  lemma WithoutWhole(all: seq<Coin>, lo: nat, hi: nat)
    requires KeysDiffer(all) && lo <= hi <= |all|
    ensures Without(all, Keys(all[lo..hi])) == all[..lo] + all[hi..]
  {
    hide Key, Keys, KeysDiffer, Without;
    WithoutWindow(all, lo, hi, |all|);
    assert all[..|all|] == all;
  }

  lemma ThreeParts(all: seq<Coin>, lo: nat, hi: nat)
    requires lo <= hi <= |all|
    ensures all == all[..lo] + all[lo..hi] + all[hi..]
  {
    assert all[..hi] == all[..lo] + all[lo..hi];
    assert all == all[..hi] + all[hi..];
  }

  /** A window of the ordered coins and the rest make up all of them. */
  lemma BuildWindow(all: seq<Coin>, lo: nat, hi: nat)
    requires Positive(all) && KeysDiffer(all) && lo <= hi <= |all|
    ensures Build(all, all[lo..hi]).Ok? ==>
              var picked := Build(all, all[lo..hi]).value;
              && picked.selected == all[lo..hi] && picked.unselected == all[..lo] + all[hi..]
              && picked.selectedTotal == Sum(picked.selected) && picked.unselectedTotal == Sum(picked.unselected)
              && multiset(picked.selected) + multiset(picked.unselected) == multiset(all)
  {
    hide Keys, KeysDiffer, Without, Sum;
    WithoutWhole(all, lo, hi);
    ThreeParts(all, lo, hi);
  }

  predicate Plannable(total: int, send: int64, rate: int64, n: int64, script: Script) {
    0 <= total <= MAX_INT64 && PlanFee(total, send, rate, n, script).Ok?
  }

  /** No prefix of `from` up to but not including `to` coins can be planned. */
  predicate NoneBefore(ordered: seq<Coin>, send: int64, rate: int64, script: Script, from: nat, to: nat)
    requires Positive(ordered) && to <= Min(|ordered|, SAFE_MAX_INPUTS) + 1
  {
    forall k :: from <= k < to ==>
      Sum(ordered[..k]) <= MAX_INT64 && !Plannable(Sum(ordered[..k]), send, rate, k, script)
  }

  lemma {:induction false} FirstPrefixIs(ordered: seq<Coin>, send: int64, rate: int64, script: Script, count: nat, limit: nat)
    requires Positive(ordered) && 1 <= count && limit <= Min(|ordered|, SAFE_MAX_INPUTS)
    ensures var r := FirstPrefix(ordered, send, rate, script, count, limit);
            && (r.Ok? && r.value.Some? ==>
                  var (n, plan) := r.value.value;
                  && 0 <= Sum(ordered[..n]) <= MAX_INT64 && PlanFee(Sum(ordered[..n]), send, rate, n, script) == Ok(plan)
                  && NoneBefore(ordered, send, rate, script, count, n))
            && (r.Ok? && r.value.None? ==> NoneBefore(ordered, send, rate, script, count, limit + 1))
    decreases limit + 1 - count
  {
    hide PlanFee, Sum;
    if count <= limit {
      SumNonNegative(ordered[..count]);
      if Sum(ordered[..count]) <= MAX_INT64 && PlanFee(Sum(ordered[..count]), send, rate, count, script).Err? {
        FirstPrefixIs(ordered, send, rate, script, count + 1, limit);
      }
    }
  }

  /** What an accepted selection is: at most 22 coins that carry the plan, the rest
      of the coins beside them, and the shortest plannable ascending prefix or,
      when there is none, the 22 largest. */
  lemma SelectionSound(coins: seq<Coin>, send: int64, rate: int64, script: Script)
    requires |coins| < TWO_63 && SelectForAmount(coins, send, rate, script).Ok?
    ensures var (picked, plan) := SelectForAmount(coins, send, rate, script).value;
            var ordered := Ordered(coins).value;
            var n := |picked.selected|;
            && Ordered(coins).Ok? && Positive(ordered) && 1 <= n <= Min(|ordered|, SAFE_MAX_INPUTS)
            && multiset(picked.selected) + multiset(picked.unselected) == multiset(coins)
            && picked.selectedTotal == Sum(picked.selected) && picked.unselectedTotal == Sum(picked.unselected)
            && PlanFee(picked.selectedTotal, send, rate, n, script) == Ok(plan)
            && (|| (picked.selected == ordered[..n] && NoneBefore(ordered, send, rate, script, 1, n))
                || (n == SAFE_MAX_INPUTS && picked.selected == Largest(ordered, n)
                    && NoneBefore(ordered, send, rate, script, 1, n + 1)))
  {
    hide PlanFee, Build, FirstPrefix, Ordered, Sum, NoneBefore, Positive;
    OrderedFacts(coins);
    var ordered := Ordered(coins).value;
    var limit := Min(|ordered|, SAFE_MAX_INPUTS);
    FirstPrefixIs(ordered, send, rate, script, 1, limit);
    var found := FirstPrefix(ordered, send, rate, script, 1, limit);
    if found.value.Some? {
      var n := found.value.value.0;
      assert ordered[0..n] == ordered[..n];
      BuildWindow(ordered, 0, n);
    } else {
      BuildWindow(ordered, |ordered| - SAFE_MAX_INPUTS, |ordered|);
      assert ordered[|ordered| - SAFE_MAX_INPUTS..|ordered|] == Largest(ordered, SAFE_MAX_INPUTS);
    }
  }

  /** Value is conserved from the selected coins to the outputs and the fee. */
  lemma SelectionConserves(coins: seq<Coin>, send: int64, rate: int64, script: Script, change: Script)
    requires |coins| < TWO_63 && |change| == 34 && SelectForAmount(coins, send, rate, script).Ok?
    ensures var (picked, plan) := SelectForAmount(coins, send, rate, script).value;
            && Sum(picked.selected) == send + plan.fee + plan.change
            && (plan.includeChange <==> plan.change > 0)
            && rate * plan.vsize <= plan.fee * 1000
  {
    hide SelectForAmount, PlanFee;
    SelectionSound(coins, send, rate, script);
    var (picked, plan) := SelectForAmount(coins, send, rate, script).value;
    PlanSound(picked.selectedTotal, send, rate, |picked.selected|, script, change);
  }

  /** The order in which coins are listed does not matter. */
  lemma SelectionCanonical(coins: seq<Coin>, permuted: seq<Coin>, send: int64, rate: int64, script: Script)
    requires |coins| < TWO_63 && |permuted| < TWO_63 && multiset(coins) == multiset(permuted)
    ensures var a, b := SelectForAmount(coins, send, rate, script), SelectForAmount(permuted, send, rate, script);
            a == b || (a.Err? && b.Err? && a.error.BadCoins? && b.error.BadCoins?)
  {
    hide SelectOrdered, Ordered;
    OrderedCanonical(coins, permuted);
  }

  // ------------------------------------------------------- the exchange argument

  /** Coins taken from `all`, none twice. */
  predicate Among(some: seq<Coin>, all: seq<Coin>) {
    Distinct(some) && forall i :: 0 <= i < |some| ==> some[i] in all
  }

  lemma SumRemove(some: seq<Coin>, i: nat)
    requires i < |some|
    ensures Sum(some) == Sum(some[..i] + some[i + 1..]) + some[i].amount
  {
    hide Sum;
    SumConcat(some[..i], some[i + 1..]);
    SumConcat(some[..i] + [some[i]], some[i + 1..]);
    SumConcat(some[..i], [some[i]]);
    SumOne(some[i]);
    assert some == some[..i] + [some[i]] + some[i + 1..];
  }

  lemma SumOne(c: Coin)
    ensures Sum([c]) == c.amount
  {
    assert [c][..0] == [];
  }

  lemma LargestShift(all: seq<Coin>, k: nat)
    requires Ascending(all) && 0 < k < |all|
    ensures Sum(Largest(all[..|all| - 1], k)) <= Sum(Largest(all, k))
  {
    hide Sum, Ascending;
    var n := |all|;
    var common := all[n - k..n - 1];
    assert Largest(all[..n - 1], k) == [all[n - 1 - k]] + common;
    assert Largest(all, k) == common + [all[n - 1]];
    SumConcat([all[n - 1 - k]], common);
    SumConcat(common, [all[n - 1]]);
    SumOne(all[n - 1 - k]);
    SumOne(all[n - 1]);
    AmountsAscend(all, n - 1 - k, n - 1);
  }

  lemma AmountsAscend(all: seq<Coin>, i: nat, j: nat)
    requires Ascending(all) && i < j < |all|
    ensures all[i].amount <= all[j].amount
  {
    assert Less(all[i], all[j]);
  }

  lemma LargestGrows(all: seq<Coin>, k: nat)
    requires 0 < k <= |all|
    ensures Sum(Largest(all, k)) == Sum(Largest(all[..|all| - 1], k - 1)) + all[|all| - 1].amount
  {
    var b := Largest(all, k);
    assert b[..k - 1] == Largest(all[..|all| - 1], k - 1);
  }

  /** No k coins are worth more than the k largest. */
  lemma {:induction false} LargestIsBest(all: seq<Coin>, some: seq<Coin>)
    requires Ascending(all) && Among(some, all)
    ensures |some| <= |all| && Sum(some) <= Sum(Largest(all, |some|))
    decreases |all|
  {
    hide Sum, Largest;
    NoneAmong(some, all);
    if all == [] {
      NoLargest(all);
    } else {
      var init, last := all[..|all| - 1], all[|all| - 1];
      assert all == init + [last];
      if i :| 0 <= i < |some| && some[i] == last {
        LargestIsBest(init, some[..i] + some[i + 1..]);
        SumRemove(some, i);
        LargestGrows(all, |some|);
      } else {
        LargestIsBest(init, some);
        if some == [] { NoLargest(all); NoLargest(init); } else { LargestShift(all, |some|); }
      }
    }
  }

  lemma NoneAmong(some: seq<Coin>, all: seq<Coin>)
    requires Among(some, all)
    ensures some != [] ==> all != []
  {
    if some != [] { assert some[0] in all; }
  }

  lemma NoLargest(all: seq<Coin>)
    ensures Largest(all, 0) == []
  {
  }

  // ---------------------------------------------- when "insufficient funds" is true

  /** Every sum of coins, every size and every fee stays inside int64. */
  predicate InRange(coins: seq<Coin>, rate: int64, script: Script) {
    |coins| < TWO_63 && Ordered(coins).Ok? && Sum(Ordered(coins).value) <= MAX_INT64 && FeesFit(rate, script)
  }

  /** Some choice of at most 22 of the coins can be planned. */
  ghost predicate Payable(coins: seq<Coin>, send: int64, rate: int64, script: Script) {
    exists some: seq<Coin> :: PaysWith(coins, some, send, rate, script)
  }

  predicate PaysWith(coins: seq<Coin>, some: seq<Coin>, send: int64, rate: int64, script: Script) {
    && Among(some, coins) && 1 <= |some| <= SAFE_MAX_INPUTS
    && Plannable(Sum(some), send, rate, |some|, script)
  }

  /** What `n` coins worth `total` leave to send. */
  function Net(total: int, n: int, rate: int64, script: Script): int { total - MinFee(rate, n, script) }

  function BestNet(ordered: seq<Coin>, k: nat, rate: int64, script: Script): int
    requires k <= |ordered|
  {
    Net(Sum(Largest(ordered, k)), k, rate, script)
  }

  function PrefixNet(ordered: seq<Coin>, k: nat, rate: int64, script: Script): int
    requires k <= |ordered|
  {
    Net(Sum(ordered[..k]), k, rate, script)
  }

  /** One of the selections that the selector looks at leaves at least `send`. */
  predicate Tried(ordered: seq<Coin>, send: int, rate: int64, script: Script) {
    || (exists k :: 1 <= k <= Min(|ordered|, SAFE_MAX_INPUTS) && PrefixNet(ordered, k, rate, script) >= send)
    || (|ordered| > SAFE_MAX_INPUTS && BestNet(ordered, SAFE_MAX_INPUTS, rate, script) >= send)
  }

  predicate BestCovers(ordered: seq<Coin>, send: int, rate: int64, script: Script) {
    exists k :: 1 <= k <= Min(|ordered|, SAFE_MAX_INPUTS) && BestNet(ordered, k, rate, script) >= send
  }

  lemma WindowSum(all: seq<Coin>, lo: nat, hi: nat)
    requires Positive(all) && lo <= hi <= |all|
    ensures 0 <= Sum(all[lo..hi]) <= Sum(all)
    ensures Sum(all[..lo] + all[hi..]) == Sum(all) - Sum(all[lo..hi])
  {
    hide Sum;
    SumConcat(all[..lo], all[lo..hi]);
    SumConcat(all[..lo] + all[lo..hi], all[hi..]);
    SumConcat(all[..lo], all[hi..]);
    ThreeParts(all, lo, hi);
    SumNonNegative(all[..lo]);
    SumNonNegative(all[lo..hi]);
    SumNonNegative(all[hi..]);
  }

  lemma PrefixPlannable(ordered: seq<Coin>, send: int64, rate: int64, script: Script, k: nat)
    requires Positive(ordered) && Sum(ordered) <= MAX_INT64 && FeesFit(rate, script) && send > 0
    requires 1 <= k <= Min(|ordered|, SAFE_MAX_INPUTS)
    ensures Sum(ordered[..k]) <= MAX_INT64
    ensures Plannable(Sum(ordered[..k]), send, rate, k, script) <==> PrefixNet(ordered, k, rate, script) >= send
  {
    hide PlanFee, MinFee, FeesFit, Sum, Positive;
    WindowSum(ordered, 0, k);
    assert ordered[0..k] == ordered[..k];
    PlanIff(Sum(ordered[..k]), send, rate, k, script);
  }

  lemma ResultIffTried(coins: seq<Coin>, send: int64, rate: int64, script: Script)
    requires InRange(coins, rate, script) && send > 0
    ensures var r := SelectForAmount(coins, send, rate, script);
            if Tried(Ordered(coins).value, send, rate, script) then r.Ok? else r == Err(SelectError.InsufficientFunds)
  {
    hide PlanFee, Ordered, FirstPrefix, TryLargest, Build, MinFee, Sum, Positive;
    OrderedFacts(coins);
    var ordered := Ordered(coins).value;
    var limit := Min(|ordered|, SAFE_MAX_INPUTS);
    forall k | 1 <= k <= limit
      ensures Sum(ordered[..k]) <= MAX_INT64
      ensures Plannable(Sum(ordered[..k]), send, rate, k, script) <==> PrefixNet(ordered, k, rate, script) >= send
    {
      PrefixPlannable(ordered, send, rate, script, k);
    }
    FirstPrefixTotal(ordered, send, rate, script, 1, limit);
    FirstPrefixIs(ordered, send, rate, script, 1, limit);
    var found := FirstPrefix(ordered, send, rate, script, 1, limit);
    if found.value.Some? {
      BuildTotal(ordered, 0, found.value.value.0);
      assert ordered[0..found.value.value.0] == ordered[..found.value.value.0];
    } else {
      LargestResult(ordered, send, rate, script);
    }
  }

  lemma LargestResult(ordered: seq<Coin>, send: int64, rate: int64, script: Script)
    requires Positive(ordered) && KeysDiffer(ordered) && Sum(ordered) <= MAX_INT64 && FeesFit(rate, script) && send > 0
    ensures var r := TryLargest(ordered, send, rate, script);
            if |ordered| > SAFE_MAX_INPUTS && BestNet(ordered, SAFE_MAX_INPUTS, rate, script) >= send then r.Ok?
            else r == Err(SelectError.InsufficientFunds)
  {
    hide PlanFee, Build, MinFee, FeesFit, Sum, Positive, KeysDiffer;
    if |ordered| > SAFE_MAX_INPUTS {
      var largest := Largest(ordered, SAFE_MAX_INPUTS);
      assert ordered[|ordered| - SAFE_MAX_INPUTS..|ordered|] == largest;
      BuildTotal(ordered, |ordered| - SAFE_MAX_INPUTS, |ordered|);
      PlanIff(Sum(largest), send, rate, SAFE_MAX_INPUTS, script);
    }
  }

  lemma {:induction false} FirstPrefixTotal(ordered: seq<Coin>, send: int64, rate: int64, script: Script, count: nat, limit: nat)
    requires Positive(ordered) && 1 <= count && limit <= Min(|ordered|, SAFE_MAX_INPUTS)
    requires forall k :: count <= k <= limit ==> Sum(ordered[..k]) <= MAX_INT64
    ensures FirstPrefix(ordered, send, rate, script, count, limit).Ok?
    decreases limit + 1 - count
  {
    hide PlanFee, Sum;
    if count <= limit { FirstPrefixTotal(ordered, send, rate, script, count + 1, limit); }
  }

  lemma BuildTotal(all: seq<Coin>, lo: nat, hi: nat)
    requires Positive(all) && KeysDiffer(all) && lo <= hi <= |all| && Sum(all) <= MAX_INT64
    ensures Build(all, all[lo..hi]).Ok? && 0 <= Sum(all[lo..hi]) <= MAX_INT64
  {
    hide Keys, KeysDiffer, Without, Sum;
    WindowSum(all, lo, hi);
    WithoutWhole(all, lo, hi);
  }

  lemma PayableIffBest(coins: seq<Coin>, send: int64, rate: int64, script: Script)
    requires InRange(coins, rate, script) && send > 0
    ensures Payable(coins, send, rate, script) <==> BestCovers(Ordered(coins).value, send, rate, script)
  {
    hide PaysWith, BestNet, FeesFit;
    OrderedFacts(coins);
    var ordered := Ordered(coins).value;
    if some :| PaysWith(coins, some, send, rate, script) {
      PayingIsBest(coins, ordered, some, send, rate, script);
    }
    if k :| 1 <= k <= Min(|ordered|, SAFE_MAX_INPUTS) && BestNet(ordered, k, rate, script) >= send {
      BestIsPaying(coins, ordered, k, send, rate, script);
      assert Payable(coins, send, rate, script);
    }
  }

  lemma PayingIsBest(coins: seq<Coin>, ordered: seq<Coin>, some: seq<Coin>, send: int64, rate: int64, script: Script)
    requires Ascending(ordered) && multiset(ordered) == multiset(coins) && FeesFit(rate, script) && send > 0
    requires PaysWith(coins, some, send, rate, script)
    ensures 1 <= |some| <= Min(|ordered|, SAFE_MAX_INPUTS) && BestNet(ordered, |some|, rate, script) >= send
  {
    hide PlanFee, MinFee, Ascending, Sum, FeesFit;
    PlanIff(Sum(some), send, rate, |some|, script);
    forall i | 0 <= i < |some| ensures some[i] in ordered {
      assert some[i] in multiset(coins);
    }
    LargestIsBest(ordered, some);
  }

  lemma BestIsPaying(coins: seq<Coin>, ordered: seq<Coin>, k: nat, send: int64, rate: int64, script: Script)
    requires Positive(ordered) && Ascending(ordered) && multiset(ordered) == multiset(coins) && FeesFit(rate, script) && send > 0
    requires 1 <= k <= Min(|ordered|, SAFE_MAX_INPUTS) && BestNet(ordered, k, rate, script) >= send && Sum(ordered) <= MAX_INT64
    ensures PaysWith(coins, Largest(ordered, k), send, rate, script)
  {
    hide PlanFee, MinFee, Ascending, Sum, FeesFit, Among, Positive;
    var some := Largest(ordered, k);
    assert some == ordered[|ordered| - k..|ordered|];
    WindowSum(ordered, |ordered| - k, |ordered|);
    PlanIff(Sum(some), send, rate, k, script);
    AmongWindow(coins, ordered, |ordered| - k);
  }

  lemma AmongWindow(coins: seq<Coin>, ordered: seq<Coin>, lo: nat)
    requires multiset(ordered) == multiset(coins) && Ascending(ordered) && lo <= |ordered|
    ensures Among(ordered[lo..], coins)
  {
    var some := ordered[lo..];
    forall i | 0 <= i < |some| ensures some[i] in coins {
      assert ordered[lo + i] in multiset(coins);
    }
    forall i, j | 0 <= i < j < |some| ensures some[i] != some[j] {
      assert Less(ordered[lo + i], ordered[lo + j]);
      LessTotal(some[i], some[j]);
    }
  }

  /** Exactly where the selector answers "insufficient funds" although some choice of
      at most 22 coins would pay: where the k largest coins, for some k, leave enough
      but neither an ascending prefix nor the 22 largest do. */
  lemma WrongAnswerIff(coins: seq<Coin>, send: int64, rate: int64, script: Script)
    requires InRange(coins, rate, script) && send > 0
    ensures SelectForAmount(coins, send, rate, script) == Err(SelectError.InsufficientFunds)
              && Payable(coins, send, rate, script)
        <==> BestCovers(Ordered(coins).value, send, rate, script) && !Tried(Ordered(coins).value, send, rate, script)
  {
    hide SelectForAmount, Payable, BestCovers, Tried, InRange;
    ResultIffTried(coins, send, rate, script);
    PayableIffBest(coins, send, rate, script);
  }

  /** Each coin is worth at least the fee that it adds. */
  predicate EachPaysItsWay(ordered: seq<Coin>, rate: int64, script: Script) {
    forall i, k :: 0 <= i < |ordered| && 1 <= k < SAFE_MAX_INPUTS ==>
      ordered[i].amount >= MinFee(rate, k + 1, script) - MinFee(rate, k, script)
  }

  lemma {:induction false} BestNetGrows(ordered: seq<Coin>, k: nat, n: nat, rate: int64, script: Script)
    requires EachPaysItsWay(ordered, rate, script) && 1 <= k <= n <= Min(|ordered|, SAFE_MAX_INPUTS)
    ensures BestNet(ordered, k, rate, script) <= BestNet(ordered, n, rate, script)
    decreases n - k
  {
    hide MinFee, Sum;
    if k < n {
      BestNetGrows(ordered, k + 1, n, rate, script);
      var coin := ordered[|ordered| - k - 1];
      assert Largest(ordered, k + 1) == [coin] + Largest(ordered, k);
      SumConcat([coin], Largest(ordered, k));
      SumOne(coin);
    }
  }

  lemma TriedIffBest(ordered: seq<Coin>, send: int, rate: int64, script: Script)
    requires Positive(ordered) && Ascending(ordered) && EachPaysItsWay(ordered, rate, script)
    ensures Tried(ordered, send, rate, script) <==> BestCovers(ordered, send, rate, script)
  {
    hide MinFee, Sum, Positive, Ascending, EachPaysItsWay;
    var limit := Min(|ordered|, SAFE_MAX_INPUTS);
    if k :| 1 <= k <= limit && BestNet(ordered, k, rate, script) >= send {
      BestNetGrows(ordered, k, limit, rate, script);
      assert |ordered| <= SAFE_MAX_INPUTS ==> Largest(ordered, limit) == ordered[..limit];
      assert |ordered| <= SAFE_MAX_INPUTS ==> PrefixNet(ordered, limit, rate, script) >= send;
    }
    if k :| 1 <= k <= limit && PrefixNet(ordered, k, rate, script) >= send {
      PrefixAtMostLargest(ordered, k);
      assert BestNet(ordered, k, rate, script) >= send;
    }
  }

  /** When no coin costs more than it brings, the answer is always right: the call
      succeeds exactly when some choice of at most 22 coins can pay. */
  lemma SelectorComplete(coins: seq<Coin>, send: int64, rate: int64, script: Script)
    requires InRange(coins, rate, script) && send > 0
    requires EachPaysItsWay(Ordered(coins).value, rate, script)
    ensures SelectForAmount(coins, send, rate, script).Ok? <==> Payable(coins, send, rate, script)
  {
    hide SelectForAmount, Payable, EachPaysItsWay, Tried, BestCovers;
    ResultIffTried(coins, send, rate, script);
    PayableIffBest(coins, send, rate, script);
    OrderedFacts(coins);
    TriedIffBest(Ordered(coins).value, send, rate, script);
  }

  lemma PrefixAtMostLargest(ordered: seq<Coin>, k: nat)
    requires Ascending(ordered) && k <= |ordered|
    ensures Sum(ordered[..k]) <= Sum(Largest(ordered, k))
  {
    var some := ordered[..k];
    forall i, j | 0 <= i < j < |some| ensures some[i] != some[j] {
      assert Less(ordered[i], ordered[j]);
      LessTotal(some[i], some[j]);
    }
    LargestIsBest(ordered, some);
  }

  const DUST: Coin := Coin("a", 0, 1)
  const ENOUGH: Coin := Coin("b", 0, 5376)

  lemma DustOrdered()
    ensures Ordered([DUST, ENOUGH]) == Ok([DUST, ENOUGH]) && Sum([DUST, ENOUGH]) == 5377
  {
    var coins := [DUST, ENOUGH];
    OrderedSound(coins);
    AscendingUnique(Ordered(coins).value, coins);
    SumOne(DUST);
    SumOne(ENOUGH);
    SumConcat([DUST], [ENOUGH]);
    assert [DUST] + [ENOUGH] == coins;
  }

  lemma DustFees(script: Script)
    requires |script| == 34
    ensures MinFee(1000, 1, script) == 4376 && MinFee(1000, 2, script) == 8698 && FeesFit(1000, script)
  {
  }

  /** Without that hypothesis it can be wrong: one coin of exactly amount plus fee is
      refused because a 1-satoshi coin lies beside it. */
  lemma DustExample(script: Script)
    requires |script| == 34
    ensures SelectForAmount([DUST, ENOUGH], 1000, 1000, script) == Err(SelectError.InsufficientFunds)
    ensures PaysWith([DUST, ENOUGH], [ENOUGH], 1000, 1000, script)
  {
    hide SelectForAmount, PlanFee, MinFee, FeesFit, Ordered, Sum;
    DustOrdered();
    DustFees(script);
    SumOne(DUST);
    SumOne(ENOUGH);
    var coins := [DUST, ENOUGH];
    assert coins[..1] == [DUST] && coins[..2] == coins;
    assert PrefixNet(coins, 1, 1000, script) < 1000 && PrefixNet(coins, 2, 1000, script) < 1000;
    assert !Tried(coins, 1000, 1000, script);
    ResultIffTried(coins, 1000, 1000, script);
    PlanIff(5376, 1000, 1000, 1, script);
    assert coins[1] == ENOUGH;
  }

  // ---------------------------------------------------------- the largest payment

  /** Sweeping takes the smallest coins, at most 22, and pays all of them out. */
  lemma MaximumSound(coins: seq<Coin>, rate: int64, script: Script)
    requires |coins| < TWO_63 && SelectMaximum(coins, rate, script).Ok?
    ensures var (picked, plan) := SelectMaximum(coins, rate, script).value;
            && Ordered(coins).Ok?
            && picked.selected == Ordered(coins).value[..Min(|coins|, SAFE_MAX_INPUTS)]
            && multiset(picked.selected) + multiset(picked.unselected) == multiset(coins)
            && Sum(picked.selected) == plan.send + plan.fee && plan.send > 0
            && PlanWithdrawAll(picked.selectedTotal, rate, |picked.selected|, script) == Ok(plan)
  {
    hide Build, PlanWithdrawAll, Ordered, Sum;
    OrderedFacts(coins);
    var ordered := Ordered(coins).value;
    var limit := Min(|ordered|, SAFE_MAX_INPUTS);
    assert ordered[0..limit] == ordered[..limit];
    BuildWindow(ordered, 0, limit);
    WithdrawTotals(Build(ordered, ordered[..limit]).value.selectedTotal, rate, limit, script);
  }

  /** Exactly when there is a largest payment, if the coins add up within int64. */
  lemma MaximumExistsIff(coins: seq<Coin>, rate: int64, script: Script)
    requires |coins| < TWO_63 && (Ordered(coins).Ok? ==> Sum(Ordered(coins).value) <= MAX_INT64)
    ensures SelectMaximum(coins, rate, script).Ok? <==>
              && rate > 0 && script != [] && Ordered(coins).Ok?
              && var n := Min(|coins|, 22);
                 var total := Sum(Ordered(coins).value[..n]);
                 0 <= total <= MAX_INT64 && PlanWithdrawAll(total, rate, n, script).Ok?
  {
    hide Build, PlanWithdrawAll, Ordered, Sum;
    if Ordered(coins).Ok? {
      OrderedFacts(coins);
      var ordered, n := Ordered(coins).value, Min(|coins|, 22);
      assert ordered[0..n] == ordered[..n];
      BuildTotal(ordered, 0, n);
      BuildWindow(ordered, 0, n);
    }
  }

  /** What a refusal of the amount selector means. */
  lemma SelectRefusal(coins: seq<Coin>, send: int64, rate: int64, script: Script)
    requires |coins| < TWO_63
    ensures var r := SelectForAmount(coins, send, rate, script);
            var asked := send > 0 && rate > 0 && script != [];
            && (r == Err(NonPositiveSend) <==> send <= 0)
            && (r == Err(SelectError.NonPositiveRate) <==> send > 0 && rate <= 0)
            && (r == Err(SelectError.EmptyScript) <==> send > 0 && rate > 0 && script == [])
            && (forall e :: r == Err(BadCoins(e)) <==> asked && Ordered(coins) == Err(e))
            && (r == Err(TotalOverflow) ==> Ordered(coins).Ok? && Sum(Ordered(coins).value) > MAX_INT64)
            && (r == Err(SelectError.InsufficientFunds) ==> Ordered(coins).Ok? && NothingPlannable(Ordered(coins).value, send, rate, script))
  {
    hide Ordered, SelectOrdered, Sum, NothingPlannable;
    if Ordered(coins).Ok? {
      OrderedFacts(coins);
      OrderedRefusal(Ordered(coins).value, send, rate, script);
    }
  }

  /** Neither an ascending prefix of up to 22 coins nor the 22 largest can be planned. */
  predicate NothingPlannable(ordered: seq<Coin>, send: int64, rate: int64, script: Script) {
    && (forall k :: 1 <= k <= Min(|ordered|, 22) ==> !Plannable(Sum(ordered[..k]), send, rate, k, script))
    && (|ordered| > 22 ==> !Plannable(Sum(ordered[|ordered| - 22..]), send, rate, 22, script))
  }

  lemma OrderedRefusal(ordered: seq<Coin>, send: int64, rate: int64, script: Script)
    requires Positive(ordered) && KeysDiffer(ordered)
    ensures var r := SelectOrdered(ordered, send, rate, script);
            && (r.Err? ==> r.error == TotalOverflow || r.error == SelectError.InsufficientFunds)
            && (r == Err(TotalOverflow) ==> Sum(ordered) > MAX_INT64)
            && (r == Err(SelectError.InsufficientFunds) ==> NothingPlannable(ordered, send, rate, script))
  {
    hide PlanFee, Sum, FirstPrefix, Build, KeysDiffer;
    var limit := Min(|ordered|, SAFE_MAX_INPUTS);
    FirstPrefixIs(ordered, send, rate, script, 1, limit);
    PrefixRefusal(ordered, send, rate, script, 1, limit);
    if Sum(ordered) <= MAX_INT64 {
      forall k | 1 <= k <= limit ensures Sum(ordered[..k]) <= MAX_INT64 {
        WindowSum(ordered, 0, k);
        assert ordered[0..k] == ordered[..k];
      }
      FirstPrefixTotal(ordered, send, rate, script, 1, limit);
      var found := FirstPrefix(ordered, send, rate, script, 1, limit);
      if found.value.Some? {
        BuildTotal(ordered, 0, found.value.value.0);
        assert ordered[0..found.value.value.0] == ordered[..found.value.value.0];
      }
      if |ordered| > 22 {
        BuildTotal(ordered, |ordered| - 22, |ordered|);
        assert ordered[|ordered| - 22..|ordered|] == ordered[|ordered| - 22..];
      }
    }
    BuildRefusal(ordered);
  }

  lemma BuildRefusal(all: seq<Coin>)
    requires Positive(all)
    ensures forall selected :: Positive(selected) && Build(all, selected).Err? ==> Build(all, selected).error == TotalOverflow
  {
    hide Sum, Without, Keys;
  }

  lemma {:induction false} PrefixRefusal(ordered: seq<Coin>, send: int64, rate: int64, script: Script, count: nat, limit: nat)
    requires Positive(ordered) && 1 <= count && limit <= Min(|ordered|, SAFE_MAX_INPUTS)
    ensures var r := FirstPrefix(ordered, send, rate, script, count, limit); r.Err? ==> r.error == TotalOverflow
    decreases limit + 1 - count
  {
    hide PlanFee, Sum;
    if count <= limit && Sum(ordered[..count]) <= MAX_INT64 {
      SumNonNegative(ordered[..count]);
      if PlanFee(Sum(ordered[..count]), send, rate, count, script).Err? {
        PrefixRefusal(ordered, send, rate, script, count + 1, limit);
      }
    }
  }
}
