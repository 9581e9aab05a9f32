/** Listing the index: KeyIndex.ListByState and the insertion sort of Wallet.ListAddresses. */
module Listing {
  import opened Common
  import opened Keystore
  import opened Lifecycle

  /** The records of the first `n` indices, in index order. */
  function Scan(s: Store, n: nat): seq<Record> {
    if n == 0 then []
    else Scan(s, n - 1) + if n - 1 in s.addresses then [s.addresses[n - 1]] else []
  }

  function InState(rs: seq<Record>, state: State): seq<Record> {
    if rs == [] then []
    else InState(rs[..|rs| - 1], state) + if rs[|rs| - 1].state == state then [rs[|rs| - 1]] else []
  }

  predicate Ordered(rs: seq<Record>) { forall i, j :: 0 <= i < j < |rs| ==> rs[i].index <= rs[j].index }

  lemma {:induction false} GroupCounts(rs: seq<Record>, state: State, r: Record)
    ensures multiset(InState(rs, state))[r] == if r.state == state then multiset(rs)[r] else 0
  {
    if rs != [] {
      GroupCounts(rs[..|rs| - 1], state, r);
      assert rs == rs[..|rs| - 1] + [rs[|rs| - 1]];
    }
  }

  /** Group by group, every record is there once. */
  lemma GroupsCover(rs: seq<Record>)
    ensures multiset(Grouped(rs)) == multiset(rs)
  {
    hide InState;
    forall r: Record ensures multiset(Grouped(rs))[r] == multiset(rs)[r] {
      GroupCounts(rs, Fresh, r);
      GroupCounts(rs, Funded, r);
      GroupCounts(rs, SpendPending, r);
      GroupCounts(rs, Spent, r);
      GroupCounts(rs, Retired, r);
    }
  }

  /** The five scans one after the other. */
  function Grouped(rs: seq<Record>): seq<Record> {
    InState(rs, Fresh) + InState(rs, Funded) + InState(rs, SpendPending) + InState(rs, Spent) + InState(rs, Retired)
  }

  lemma Split(init: seq<Record>, last: Record, rs: seq<Record>)
    requires rs != [] && init == rs[..|rs| - 1] && last == rs[|rs| - 1]
    ensures multiset(rs) == multiset(init) + multiset{last}
  {
    assert rs == init + [last];
  }

  /** `rs` up to `i` is ordered but for the record at `j`, which is below all after it. */
  predicate Sinking(rs: seq<Record>, i: nat, j: nat)
    requires j <= i < |rs|
  {
    && (forall x, y :: 0 <= x < y <= i && x != j && y != j ==> rs[x].index <= rs[y].index)
    && forall y :: j < y <= i ==> rs[j].index <= rs[y].index
  }

  function Swapped(rs: seq<Record>, j: nat): seq<Record>
    requires 0 < j < |rs|
  {
    rs[j := rs[j - 1]][j - 1 := rs[j]]
  }

  lemma SinkStep(rs: seq<Record>, i: nat, j: nat)
    requires 0 < j <= i < |rs| && Sinking(rs, i, j) && rs[j].index < rs[j - 1].index
    ensures Sinking(Swapped(rs, j), i, j - 1)
  {
  }

  method SwapDown(infos: array<Record>, j: nat)
    requires 0 < j < infos.Length
    modifies infos
    ensures infos[..] == Swapped(old(infos[..]), j)
  {
    infos[j], infos[j - 1] := infos[j - 1], infos[j];
  }

  /** One outer turn: the record at `i` moves down to its place. */
  method SinkLast(infos: array<Record>, i: nat)
    requires i < infos.Length && Ordered(infos[..][..i])
    modifies infos
    ensures Ordered(infos[..][..i + 1]) && multiset(infos[..]) == multiset(old(infos[..]))
  {
    var j := i;
    ghost var rs := infos[..];
    hide Sinking, Ordered, Swapped;
    while j > 0 && infos[j].index < infos[j - 1].index
      invariant 0 <= j <= i < infos.Length && infos[..] == rs && Sinking(rs, i, j)
      invariant multiset(rs) == multiset(old(infos[..]))
    {
      SinkStep(rs, i, j);
      SwapDown(infos, j);
      rs := Swapped(rs, j);
      j := j - 1;
    }
  }

  /** The wallet's in-place insertion sort. */
  method SortByIndex(infos: array<Record>)
    modifies infos
    ensures Ordered(infos[..]) && multiset(infos[..]) == multiset(old(infos[..]))
  {
    if infos.Length == 0 {
      return;
    }
    for i := 1 to infos.Length
      invariant Ordered(infos[..][..i])
      invariant multiset(infos[..]) == multiset(old(infos[..]))
    {
      SinkLast(infos, i);
    }
    assert infos[..][..infos.Length] == infos[..];
  }

  predicate OwnIndices(rs: seq<Record>) { forall i, j :: 0 <= i < j < |rs| ==> rs[i].index != rs[j].index }

  lemma DropLast(rs: seq<Record>)
    requires rs != []
    ensures multiset(rs[..|rs| - 1]) == multiset(rs) - multiset{rs[|rs| - 1]} && rs[|rs| - 1] in multiset(rs)
  {
    Split(rs[..|rs| - 1], rs[|rs| - 1], rs);
  }

  lemma SameLast(xs: seq<Record>, ys: seq<Record>)
    requires Ordered(xs) && Ordered(ys) && multiset(xs) == multiset(ys) && OwnIndices(xs) && xs != [] && ys != []
    ensures xs[|xs| - 1] == ys[|ys| - 1]
    ensures multiset(xs[..|xs| - 1]) == multiset(ys[..|ys| - 1])
  {
    DropLast(xs);
    DropLast(ys);
    var x, y := xs[|xs| - 1], ys[|ys| - 1];
    hide Ordered, OwnIndices;
  }

  /** Two orderings of the same records agree when no two records share an index. */
  lemma {:induction false} OrderUnique(xs: seq<Record>, ys: seq<Record>)
    requires Ordered(xs) && Ordered(ys) && multiset(xs) == multiset(ys) && OwnIndices(xs)
    ensures xs == ys
    decreases |xs|
  {
    assert |xs| == |multiset(xs)| == |multiset(ys)| == |ys|;
    if xs != [] {
      SameLast(xs, ys);
      OrderUnique(xs[..|xs| - 1], ys[..|ys| - 1]);
      assert xs == xs[..|xs| - 1] + [xs[|xs| - 1]] && ys == ys[..|ys| - 1] + [ys[|ys| - 1]];
    }
  }

  lemma {:induction false} ScanOrdered(s: Store, n: nat)
    requires forall i :: 0 <= i < n ==> i in s.addresses
    ensures |Scan(s, n)| == n && forall i :: 0 <= i < n ==> Scan(s, n)[i] == s.addresses[i]
  {
    if n > 0 { ScanOrdered(s, n - 1); }
  }

  /** What the listing shows of any reachable store is every address once, in index
      order. */
  lemma ListingIsIndex(s: Store, derive: Deriver, infos: seq<Record>)
    requires Inv(s, derive) && Ordered(infos) && multiset(infos) == multiset(Scan(s, s.nextIndex))
    ensures |infos| == s.nextIndex && forall i :: 0 <= i < |infos| ==> infos[i] == s.addresses[i] && infos[i].index == i
  {
    var all := Scan(s, s.nextIndex);
    ScanOrdered(s, s.nextIndex);
    forall i | 0 <= i < |all| ensures all[i].index == i {
      assert i in s.addresses && Good(s.addresses[i], i, derive);
    }
    hide Inv, Good, Scan;
    OrderUnique(all, infos);
  }
}
