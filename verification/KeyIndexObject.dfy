/** KeyIndex, the object over the database.  Every method is one bbolt transaction
    under the mutex: it edits the buckets, or reports an error and edits nothing. */
module KeyIndexObject {
  import opened Common
  import opened Coins
  import opened Keystore
  import opened Listing

  class KeyIndex {
    var addresses: map<nat, Record>
    var nextIndex: nat
    var pending: map<string, Broadcast>
    var transactions: map<string, Transfer>

    function Contents(): Store
      reads this
    {
      Store(addresses, nextIndex, pending, transactions)
    }

    constructor ()
      ensures Contents() == EMPTY
    {
      addresses, nextIndex, pending, transactions := map[], 0, map[], map[];
    }

    method FindRecord(addr: string) returns (k: Option<nat>)
      ensures k == Find(Contents(), addr)
    {
      for i := 0 to nextIndex
        invariant Find(Contents(), addr) == FindFrom(Contents(), addr, i)
      {
        if i in addresses && addresses[i].address == addr {
          return Some(i);
        }
      }
      return None;
    }

    method GetRecord(addr: string) returns (r: Option<Record>)
      ensures r == Lookup(Contents(), addr)
    {
      var k := FindRecord(addr);
      return if k.None? then None else Some(addresses[k.value]);
    }

    method GenerateAddress(derive: Deriver, blob: Option<seq<byte>>) returns (r: Result<string, StoreError>)
      modifies this
      ensures var g := Generate(old(Contents()), derive, blob);
              Contents() == g.store && r == if g.error.Some? then Err(g.error.value) else Ok(derive(old(nextIndex)).address)
    {
      if blob.None? {
        return Err(DerivationFailed);
      }
      var d := derive(nextIndex);
      var rec := Record(nextIndex, d.address, d.publicKey, blob.value, Fresh, false, [], [], "", false, "");
      addresses := addresses[nextIndex := rec];
      nextIndex := nextIndex + 1;
      return Ok(d.address);
    }

    method CountAvailableFresh() returns (count: nat)
      ensures count == AvailableFresh(Contents(), nextIndex)
    {
      count := 0;
      for i := 0 to nextIndex
        invariant count == AvailableFresh(Contents(), i)
      {
        if i in addresses && addresses[i].state == Fresh && !addresses[i].reserved {
          count := count + 1;
        }
      }
    }

    /** Fills the pool up to `n`; blobs are what the derivations hand over, one for
        each attempt.  What was made before a failure stays. */
    method PreGenerate(n: int, derive: Deriver, blobs: seq<Option<seq<byte>>>) returns (e: Option<StoreError>)
      requires n <= |blobs|
      modifies this
      ensures Contents() == Refilled(old(Contents()), n, derive, blobs)
      ensures e.None? <==> forall i :: 0 <= i < Needed(old(Contents()), n) ==> blobs[i].Some?
    {
      hide Run, AvailableFresh, Generations, Generate;
      var current := CountAvailableFresh();
      var needed := n - current;
      var i := 0;
      RunNoGenerations(Contents(), derive, blobs);
      while i < needed
        invariant 0 <= i <= Needed(old(Contents()), n) <= |blobs|
        invariant forall k :: 0 <= k < i ==> blobs[k].Some?
        invariant Contents() == Run(old(Contents()), Generations(blobs[..i]), derive)
      {
        ghost var before := Contents();
        var r := GenerateAddress(derive, blobs[i]);
        if r.Err? {
          GenerateFails(before, derive, blobs[i]);
          MadeIs(blobs, Needed(old(Contents()), n), i);
          return Some(r.error);
        }
        AvailableAfterGenerate(before, derive, blobs[i]);
        RunGenerations(old(Contents()), derive, blobs, i);
        i := i + 1;
      }
      MadeIs(blobs, Needed(old(Contents()), n), i);
      return None;
    }

    method MarkFunded(addr: string) returns (e: Option<StoreError>)
      modifies this
      ensures Outcome(Contents(), e) == Keystore.MarkFunded(old(Contents()), addr)
    {
      var k := FindRecord(addr);
      if k.None? {
        return Some(NotFound);
      }
      var rec := addresses[k.value];
      if rec.state != Fresh {
        return Some(NotFresh);
      }
      addresses := addresses[k.value := rec.(state := Funded, reserved := false)];
      return None;
    }

    /** The change record, when there is one to reserve. */
    method CheckChange(change: string) returns (e: Option<StoreError>, k: Option<nat>)
      ensures e == ChangeError(Contents(), change)
      ensures e.None? ==> k == if change == "" then None else Find(Contents(), change)
    {
      if change == "" {
        return None, None;
      }
      k := FindRecord(change);
      if k.None? {
        return Some(NotFound), k;
      }
      var rec := addresses[k.value];
      if rec.state != Fresh || rec.reserved {
        return Some(NotFresh), k;
      }
      return None, k;
    }

    method CheckBroadcast(txid: string, source: string, kind: string, bs: seq<Broadcast>) returns (e: Option<StoreError>)
      ensures e == AddBroadcast(Contents(), txid, source, kind, bs).error
    {
      if |bs| == 0 {
        return None;
      }
      if |bs| != 1 || bs[0].txid != txid || bs[0].source != source || bs[0].kind != kind {
        return Some(BroadcastMismatch);
      }
      var b := bs[0];
      if |b.txid| != 64 || b.rawHex == "" || b.source == "" || b.amount <= 0 || b.fee < 0 || b.signedAt == 0
         || (b.kind != "spend" && b.kind != "recovery") {
        return Some(IncompleteBroadcast);
      }
      if b.txid in pending {
        return Some(BroadcastConflict);
      }
      return None;
    }

    /** The writes of a commit, once every check has passed. */
    method StoreCommit(k: nat, rec: Record, change: string, changeKey: Option<nat>, bs: seq<Broadcast>)
      requires ChangeError(Contents(), change).None? && |bs| <= 1
      requires changeKey == if change == "" then None else Find(Contents(), change)
      requires changeKey != Some(k)
      modifies this
      ensures Contents() == Put(Reserve(old(Contents()), change), k, rec).(
                pending := if bs == [] then old(pending) else old(pending)[bs[0].txid := bs[0]])
    {
      hide FindFrom;
      if |bs| == 1 {
        pending := pending[bs[0].txid := bs[0]];
      }
      addresses := addresses[k := rec];
      if changeKey.Some? {
        var other := addresses[changeKey.value];
        addresses := addresses[changeKey.value := other.(reserved := true)];
        assert addresses == old(addresses)[changeKey.value := other.(reserved := true)][k := rec];
      }
    }

    method MarkSpendPendingAndReserveChange(from: string, change: string, txid: string, bs: seq<Broadcast>) returns (e: Option<StoreError>)
      modifies this
      ensures Outcome(Contents(), e) == CommitSpend(old(Contents()), from, change, txid, bs)
    {
      var k := FindRecord(from);
      if k.None? {
        return Some(NotFound);
      }
      var rec := addresses[k.value];
      if rec.state != Funded {
        return Some(NotFunded);
      }
      var changeKey;
      e, changeKey := CheckChange(change);
      if e.Some? {
        return;
      }
      e := CheckBroadcast(txid, from, "spend", bs);
      if e.Some? {
        return;
      }
      StoreCommit(k.value, rec.(state := SpendPending, spendTxid := txid), change, changeKey, bs);
      return None;
    }

    method ObserveRecoverableOutpoints(addr: string, current: seq<Outpoint>, mature: bool) returns (became: bool, e: Option<StoreError>)
      modifies this
      ensures Observation(Outcome(Contents(), e), became) == Observe(old(Contents()), addr, current, mature)
    {
      var k := FindRecord(addr);
      if k.None? {
        return false, Some(NotFound);
      }
      var rec := addresses[k.value];
      if rec.state != Spent {
        return false, Some(NotSpent);
      }
      if |rec.recoveryPending| > 0 {
        for i := 0 to |rec.recoveryPending|
          invariant forall j :: 0 <= j < i ==> rec.recoveryPending[j] !in current
        {
          if rec.recoveryPending[i] in current {
            addresses := addresses[k.value := rec.(hasRecoverable := false, recoverable := [])];
            return false, None;
          }
        }
        rec := rec.(recoveryPending := [], recoveryTxid := "");
      }
      var wasAvailable := rec.hasRecoverable;
      var available := mature && |current| > 0;
      rec := rec.(hasRecoverable := available, recoverable := if available then current else []);
      addresses := addresses[k.value := rec];
      return !wasAvailable && available, None;
    }

    method MarkRecoveryPendingAndReserveChange(from: string, change: string, txid: string, outpoints: seq<Outpoint>, bs: seq<Broadcast>)
      returns (e: Option<StoreError>)
      modifies this
      ensures Outcome(Contents(), e) == CommitRecovery(old(Contents()), from, change, txid, outpoints, bs)
    {
      var k := FindRecord(from);
      if k.None? {
        return Some(NotFound);
      }
      var rec := addresses[k.value];
      if rec.state != Spent {
        return Some(NotSpent);
      }
      if |rec.recoveryPending| > 0 {
        return Some(RecoveryInProgress);
      }
      var authorized := RecoveryOutpointSubset(rec.recoverable, outpoints);
      if !rec.hasRecoverable || !authorized {
        return Some(RecoveryNotAvailable);
      }
      var changeKey;
      e, changeKey := CheckChange(change);
      if e.Some? {
        return;
      }
      e := CheckBroadcast(txid, from, "recovery", bs);
      if e.Some? {
        return;
      }
      var remaining := FilterOut(rec.recoverable, outpoints);
      rec := rec.(recoverable := remaining, hasRecoverable := |remaining| > 0, recoveryPending := outpoints, recoveryTxid := txid);
      StoreCommit(k.value, rec, change, changeKey, bs);
      return None;
    }

    method MarkSpent(addr: string) returns (e: Option<StoreError>)
      modifies this
      ensures Outcome(Contents(), e) == Keystore.MarkSpent(old(Contents()), addr)
    {
      var k := FindRecord(addr);
      if k.None? {
        return Some(NotFound);
      }
      var rec := addresses[k.value];
      if rec.state != SpendPending {
        return Some(NotPending);
      }
      addresses := addresses[k.value := rec.(state := Spent)];
      return None;
    }

    method Retire(addr: string) returns (e: Option<StoreError>)
      modifies this
      ensures Outcome(Contents(), e) == Keystore.Retire(old(Contents()), addr)
    {
      var k := FindRecord(addr);
      if k.None? {
        return Some(NotFound);
      }
      var rec := addresses[k.value];
      if rec.state != Spent {
        return Some(NotSpent);
      }
      if rec.hasRecoverable || |rec.recoveryPending| > 0 {
        return Some(RecoveryInProgress);
      }
      addresses := addresses[k.value := rec.(encSeed := [], state := Retired)];
      return None;
    }

    method DeletePendingBroadcast(txid: string)
      modifies this
      ensures Done(Contents()) == DeleteBroadcast(old(Contents()), txid)
    {
      pending := pending - {txid};
    }

    method PutTransaction(t: Transfer) returns (e: Option<StoreError>)
      modifies this
      ensures Outcome(Contents(), e) == PutHistory(old(Contents()), t)
    {
      var key := HistoryKey(t);
      if key.None? {
        return Some(IncompleteHistory);
      }
      if key.value in transactions {
        if transactions[key.value] == t {
          return None;
        }
        return Some(HistoryConflict);
      }
      transactions := transactions[key.value := t];
      return None;
    }

    /** History entries go to a copy of the bucket, which replaces it only when the
        whole call succeeds. */
    method MarkFundedAndRecordIncoming(addr: string, balance: int64, incoming: seq<Transfer>)
      returns (wasReserved: bool, e: Option<StoreError>)
      modifies this
      ensures Keystore.Funding(Outcome(Contents(), e), wasReserved) == FundAndRecord(old(Contents()), addr, balance, incoming)
    {
      var k := FindRecord(addr);
      if k.None? {
        return false, Some(NotFound);
      }
      var rec := addresses[k.value];
      if rec.state != Fresh {
        return false, Some(NotFresh);
      }
      wasReserved := rec.reserved;
      if !wasReserved {
        if |incoming| == 0 {
          return false, Some(NotAnchored);
        }
        var bucket := transactions;
        var recorded: int64 := 0;
        for i := 0 to |incoming|
          invariant PutIncoming(Contents(), addr, incoming, 0)
                 == PutIncoming(Contents().(history := bucket), addr, incoming[i..], recorded)
          invariant addresses == old(addresses) && nextIndex == old(nextIndex)
          invariant pending == old(pending) && transactions == old(transactions)
        {
          var t := incoming[i];
          assert incoming[i..][0] == t && incoming[i..][1..] == incoming[i + 1..];
          recorded := Wrap64(recorded + t.amount);
          if t.direction != "incoming" || t.destination != addr {
            return false, Some(InvalidIncoming);
          }
          var key := HistoryKey(t);
          if key.None? {
            return false, Some(IncompleteHistory);
          }
          if key.value in bucket {
            if bucket[key.value] != t {
              return false, Some(HistoryConflict);
            }
          } else {
            bucket := bucket[key.value := t];
          }
        }
        if recorded != balance {
          return false, Some(TotalMismatch);
        }
        transactions := bucket;
      }
      addresses := addresses[k.value := rec.(state := Funded, reserved := false)];
      return wasReserved, None;
    }

    method ListByState(state: State) returns (rs: seq<Record>)
      ensures rs == InState(Scan(Contents(), nextIndex), state)
    {
      rs := [];
      for i := 0 to nextIndex
        invariant rs == InState(Scan(Contents(), i), state)
      {
        ghost var all := Scan(Contents(), i + 1);
        assert i in addresses ==> all[..|all| - 1] == Scan(Contents(), i);
        assert i !in addresses ==> all == Scan(Contents(), i);
        if i in addresses && addresses[i].state == state {
          rs := rs + [addresses[i]];
        }
      }
    }

    /** NextFreshAddress: the lowest index that is fresh and not reserved. */
    method NextFreshAddress() returns (addr: Option<string>)
      ensures addr.Some? ==> exists k :: 0 <= k < nextIndex && FirstAvailable(Contents(), k) && addr.value == addresses[k].address
      ensures addr.None? ==> forall j :: 0 <= j < nextIndex && j in addresses ==> addresses[j].state != Fresh || addresses[j].reserved
    {
      for i := 0 to nextIndex
        invariant forall j :: 0 <= j < i && j in addresses ==> !Available(addresses[j])
      {
        if i in addresses && addresses[i].state == Fresh && !addresses[i].reserved {
          return Some(addresses[i].address);
        }
      }
      return None;
    }
  }

  predicate Available(r: Record) { r.state == Fresh && !r.reserved }

  predicate FirstAvailable(s: Store, k: nat) {
    && k in s.addresses && s.addresses[k].state == Fresh && !s.addresses[k].reserved
    && forall j :: 0 <= j < k && j in s.addresses ==> s.addresses[j].state != Fresh || s.addresses[j].reserved
  }

  function AvailableFresh(s: Store, n: nat): nat {
    if n == 0 then 0
    else AvailableFresh(s, n - 1) + if n - 1 in s.addresses && Available(s.addresses[n - 1]) then 1 else 0
  }

  /** The indices of a pool that are still to be handed out. */
  function Unused(s: Store, n: nat): set<nat> {
    set i: nat | i < n && i in s.addresses && s.addresses[i].state == Fresh && !s.addresses[i].reserved
  }

  lemma UnusedStep(s: Store, n: nat)
    ensures var more := n in s.addresses && s.addresses[n].state == Fresh && !s.addresses[n].reserved;
            Unused(s, n + 1) == Unused(s, n) + if more then {n} else {}
    ensures n !in Unused(s, n)
  {
  }

  lemma {:induction false} AvailableCounts(s: Store, n: nat)
    ensures AvailableFresh(s, n) == |Unused(s, n)|
  {
    if n == 0 {
      assert Unused(s, 0) == {};
    } else {
      UnusedStep(s, n - 1);
      hide Unused;
      AvailableCounts(s, n - 1);
    }
  }

  lemma {:induction false} AvailableUnchanged(s: Store, t: Store, n: nat)
    requires forall k :: 0 <= k < n ==> (k in s.addresses <==> k in t.addresses) && (k in s.addresses ==> s.addresses[k] == t.addresses[k])
    ensures AvailableFresh(s, n) == AvailableFresh(t, n)
  {
    if n > 0 { AvailableUnchanged(s, t, n - 1); }
  }

  lemma AvailableAfterGenerate(s: Store, derive: Deriver, blob: Option<seq<byte>>)
    requires Generate(s, derive, blob).error.None?
    ensures blob.Some?
    ensures var t := Generate(s, derive, blob).store;
            AvailableFresh(t, t.nextIndex) == AvailableFresh(s, s.nextIndex) + 1
  {
    AvailableUnchanged(s, Generate(s, derive, blob).store, s.nextIndex);
  }

  lemma GenerateFails(s: Store, derive: Deriver, blob: Option<seq<byte>>)
    ensures Generate(s, derive, blob).error.Some? ==> blob.None? && Generate(s, derive, blob).store == s
  {
  }

  /** How many addresses the pool lacks. */
  function Needed(s: Store, n: int): nat {
    if n > AvailableFresh(s, s.nextIndex) then n - AvailableFresh(s, s.nextIndex) else 0
  }

  /** How many of the first `n` derivations succeed before one fails. */
  function Made(blobs: seq<Option<seq<byte>>>, n: nat): (k: nat)
    requires n <= |blobs|
    ensures k <= n && (forall i :: 0 <= i < k ==> blobs[i].Some?) && (k < n ==> blobs[k].None?)
  {
    if n == 0 then 0
    else
      var k := Made(blobs, n - 1);
      if k == n - 1 && blobs[k].Some? then n else k
  }

  lemma MadeIs(blobs: seq<Option<seq<byte>>>, n: nat, i: nat)
    requires i <= n <= |blobs| && (forall k :: 0 <= k < i ==> blobs[k].Some?) && (i < n ==> blobs[i].None?)
    ensures Made(blobs, n) == i
  {
  }

  /** The store after the pool was filled up to `n`, as far as the derivations went. */
  function Refilled(s: Store, n: int, derive: Deriver, blobs: seq<Option<seq<byte>>>): Store
    requires n <= |blobs|
  {
    Run(s, Generations(blobs[..Made(blobs, Needed(s, n))]), derive)
  }

  /** `m` unused addresses more, and nothing else changed. */
  predicate GrownBy(s: Store, t: Store, m: nat) {
    && t.pending == s.pending && t.history == s.history && t.nextIndex == s.nextIndex + m
    && (forall k :: 0 <= k < s.nextIndex ==> (k in t.addresses <==> k in s.addresses))
    && (forall k :: 0 <= k < s.nextIndex && k in s.addresses ==> t.addresses[k] == s.addresses[k])
    && (forall k :: s.nextIndex <= k < t.nextIndex ==> k in t.addresses && t.addresses[k].state == Fresh && !t.addresses[k].reserved)
  }

  lemma GenerateGrows(s: Store, t: Store, m: nat, derive: Deriver, blob: Option<seq<byte>>)
    requires GrownBy(s, t, m) && blob.Some?
    ensures GrownBy(s, Generate(t, derive, blob).store, m + 1)
  {
  }

  lemma {:induction false} GenerationsGrow(s: Store, derive: Deriver, blobs: seq<Option<seq<byte>>>, m: nat)
    requires m <= |blobs| && forall i :: 0 <= i < m ==> blobs[i].Some?
    ensures var t := Run(s, Generations(blobs[..m]), derive);
            GrownBy(s, t, m) && AvailableFresh(t, t.nextIndex) == AvailableFresh(s, s.nextIndex) + m
  {
    hide AvailableFresh, Generations;
    if m == 0 {
      RunNoGenerations(s, derive, blobs);
    } else {
      hide Run, Generate;
      var t := Run(s, Generations(blobs[..m - 1]), derive);
      GenerationsGrow(s, derive, blobs, m - 1);
      hide GrownBy;
      RunGenerations(s, derive, blobs, m - 1);
      GenerateGrows(s, t, m - 1, derive, blobs[m - 1]);
      GenerateWorks(t, derive, blobs[m - 1]);
      AvailableAfterGenerate(t, derive, blobs[m - 1]);
    }
  }

  lemma GenerateWorks(s: Store, derive: Deriver, blob: Option<seq<byte>>)
    ensures Generate(s, derive, blob).error.None? <==> blob.Some?
  {
  }

  /** Filling the pool only adds unused addresses, as many as it lacked unless a
      derivation failed, and touches nothing that was there. */
  lemma RefillAdds(s: Store, n: int, derive: Deriver, blobs: seq<Option<seq<byte>>>)
    requires n <= |blobs|
    ensures var t, m := Refilled(s, n, derive, blobs), Made(blobs, Needed(s, n));
            && GrownBy(s, t, m) && |Unused(t, t.nextIndex)| == |Unused(s, s.nextIndex)| + m
            && (|Unused(t, t.nextIndex)| >= n <==> forall i :: 0 <= i < n - |Unused(s, s.nextIndex)| ==> blobs[i].Some?)
  {
    hide Run, Generations, GrownBy, AvailableFresh, Unused;
    GenerationsGrow(s, derive, blobs, Made(blobs, Needed(s, n)));
    AvailableCounts(s, s.nextIndex);
    AvailableCounts(Refilled(s, n, derive, blobs), Refilled(s, n, derive, blobs).nextIndex);
  }

  lemma RunNoGenerations(s: Store, derive: Deriver, blobs: seq<Option<seq<byte>>>)
    ensures Run(s, Generations(blobs[..0]), derive) == s
  {
  }

  lemma RunGenerations(s: Store, derive: Deriver, blobs: seq<Option<seq<byte>>>, i: nat)
    requires i < |blobs|
    ensures Run(s, Generations(blobs[..i + 1]), derive)
         == Generate(Run(s, Generations(blobs[..i]), derive), derive, blobs[i]).store
  {
    assert Generations(blobs[..i + 1])[..i] == Generations(blobs[..i]);
  }

  function Generations(blobs: seq<Option<seq<byte>>>): (ops: seq<Op>)
    ensures |ops| == |blobs|
  {
    seq(|blobs|, i requires 0 <= i < |blobs| => GenerateOp(blobs[i]))
  }

  // ----------------------------------------------------- outpoints by formatted key

  function SignedDecimal(x: int64): (s: string)
    ensures forall i :: 0 <= i < |s| ==> s[i] != ':'
  {
    if x < 0 then "-" + Decimal(-(x as int)) else Decimal(x)
  }

  lemma DecimalStart(n: nat)
    ensures Decimal(n)[0] != '-'
  {
  }

  lemma SignedDecimalInjective(x: int64, y: int64)
    requires SignedDecimal(x) == SignedDecimal(y)
    ensures x == y
  {
    hide Decimal;
    var m: nat, n: nat := if x < 0 then -(x as int) else x, if y < 0 then -(y as int) else y;
    DecimalStart(m);
    DecimalStart(n);
    assert SignedDecimal(x)[0] == '-' <==> x < 0;
    assert SignedDecimal(y)[0] == '-' <==> y < 0;
    if x < 0 && y < 0 {
      assert SignedDecimal(x)[1..] == Decimal(m) && SignedDecimal(y)[1..] == Decimal(n);
      DecimalInjective(m, n);
    } else {
      DecimalInjective(m, n);
    }
  }

  /** recoveryOutpointKey, and the same format in wallet.go. */
  function OutpointKey(o: Outpoint): string {
    o.txid + ":" + Decimal(o.vout) + ":" + SignedDecimal(o.amount)
  }

  lemma OutpointKeyInjective(o: Outpoint, p: Outpoint)
    ensures OutpointKey(o) == OutpointKey(p) <==> o == p
  {
    if OutpointKey(o) == OutpointKey(p) {
      LastColon(o.txid + ":" + Decimal(o.vout), p.txid + ":" + Decimal(p.vout), SignedDecimal(o.amount), SignedDecimal(p.amount));
      LastColon(o.txid, p.txid, Decimal(o.vout), Decimal(p.vout));
      SignedDecimalInjective(o.amount, p.amount);
      DecimalInjective(o.vout, p.vout);
    }
  }

  function OutpointKeys(os: seq<Outpoint>): set<string> { set i | 0 <= i < |os| :: OutpointKey(os[i]) }

  lemma InKeys(os: seq<Outpoint>, o: Outpoint)
    ensures OutpointKey(o) in OutpointKeys(os) <==> o in os
  {
    if OutpointKey(o) in OutpointKeys(os) {
      var i :| 0 <= i < |os| && OutpointKey(os[i]) == OutpointKey(o);
      OutpointKeyInjective(os[i], o);
    }
    if o in os {
      var i :| 0 <= i < |os| && os[i] == o;
    }
  }

  method KeySet(os: seq<Outpoint>) returns (keys: set<string>, repeats: bool)
    ensures keys == OutpointKeys(os) && (repeats <==> !NoRepeats(os))
  {
    hide OutpointKey;
    keys, repeats := {}, false;
    for i := 0 to |os|
      invariant keys == OutpointKeys(os[..i]) && (repeats <==> !NoRepeats(os[..i]))
    {
      var key := OutpointKey(os[i]);
      InKeys(os[..i], os[i]);
      if key in keys {
        repeats := true;
      }
      keys := keys + {key};
    }
    assert os[..|os|] == os;
  }

  /** Used by the store and, in the same form, by the wallet before it signs. */
  method RecoveryOutpointSubset(authorized: seq<Outpoint>, submitted: seq<Outpoint>) returns (ok: bool)
    ensures ok <==> Authorizes(authorized, submitted)
  {
    hide OutpointKey;
    if |submitted| == 0 {
      return false;
    }
    var keys, repeats := KeySet(authorized);
    if repeats {
      return false;
    }
    var seen: set<string> := {};
    for i := 0 to |submitted|
      invariant seen == OutpointKeys(submitted[..i]) && NoRepeats(submitted[..i])
      invariant forall j :: 0 <= j < i ==> submitted[j] in authorized
    {
      var key := OutpointKey(submitted[i]);
      InKeys(submitted[..i], submitted[i]);
      if key in seen {
        return false;
      }
      seen := seen + {key};
      InKeys(authorized, submitted[i]);
      if key !in keys {
        return false;
      }
    }
    assert submitted[..|submitted|] == submitted;
    return true;
  }

  method FilterOut(authorized: seq<Outpoint>, selected: seq<Outpoint>) returns (remaining: seq<Outpoint>)
    ensures remaining == Remaining(authorized, selected)
  {
    var keys, _ := KeySet(selected);
    remaining := [];
    for i := 0 to |authorized|
      invariant remaining == Remaining(authorized[..i], selected)
    {
      assert authorized[..i + 1][..i] == authorized[..i];
      InKeys(selected, authorized[i]);
      if OutpointKey(authorized[i]) !in keys {
        remaining := remaining + [authorized[i]];
      }
    }
    assert authorized[..|authorized|] == authorized;
  }
}
