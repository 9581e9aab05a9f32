/** Deposits on their way into the history: what MarkFundedAndRecordIncoming leaves
    there, and that it stays. */
module Funding {
  import opened Common
  import opened Keystore
  import opened Lifecycle
  import opened Deposits

  function Incoming(addr: string, deposits: seq<Deposit>, at: Time): (ts: seq<Transfer>)
    ensures |ts| == |deposits|
  {
    seq(|deposits|, i requires 0 <= i < |deposits| =>
      Transfer("incoming", deposits[i].txid, "", addr, "", deposits[i].amount, 0, at))
  }

  function Sum(ts: seq<Transfer>): int {
    if ts == [] then 0 else ts[0].amount + Sum(ts[1..])
  }

  predicate ToAddr(t: Transfer, addr: string) { t.direction == "incoming" && t.destination == addr }

  /** Every entry is stored under its own key. */
  predicate Keyed(s: Store) { forall k :: k in s.history ==> HistoryKey(s.history[k]) == Some(k) }

  predicate Within(t: Transfer, ts: seq<Transfer>) { exists i :: 0 <= i < |ts| && ts[i] == t }

  predicate NoTwice(ts: seq<Transfer>) { forall i, j :: 0 <= i < j < |ts| ==> ts[i] != ts[j] }

  predicate Stored(s: Store, t: Transfer) { HistoryKey(t).Some? && HistoryKey(t).value in s.history && s.history[HistoryKey(t).value] == t }

  /** The incoming entries of `addr` are `ts`, each of them once. */
  predicate Holds(s: Store, addr: string, ts: seq<Transfer>) {
    && NoTwice(ts)
    && (forall i :: 0 <= i < |ts| ==> ToAddr(ts[i], addr) && Stored(s, ts[i]))
    && forall k :: k in s.history && ToAddr(s.history[k], addr) ==> Within(s.history[k], ts)
  }

  /** `done`, and then what of `ts` is new, in order. */
  function Extend(done: seq<Transfer>, ts: seq<Transfer>): seq<Transfer>
    decreases |ts|
  {
    if ts == [] then done
    else Extend(if Within(ts[0], done) then done else done + [ts[0]], ts[1..])
  }

  // -------------------------------------------------------------------- one funding

  lemma PutStores(s: Store, addr: string, done: seq<Transfer>, t: Transfer)
    requires Keyed(s) && Holds(s, addr, done) && ToAddr(t, addr) && PutHistory(s, t).error.None?
    ensures Keyed(PutHistory(s, t).store)
    ensures Holds(PutHistory(s, t).store, addr, if Within(t, done) then done else done + [t])
  {
    hide HistoryKey;
    var key := HistoryKey(t).value;
    if key in s.history {
      assert ToAddr(s.history[key], addr);
    } else {
      NewStored(s, addr, done, t);
    }
  }

  lemma NewStored(s: Store, addr: string, done: seq<Transfer>, t: Transfer)
    requires Keyed(s) && Holds(s, addr, done) && ToAddr(t, addr) && HistoryKey(t).Some? && HistoryKey(t).value !in s.history
    ensures var after := s.(history := s.history[HistoryKey(t).value := t]);
            Keyed(after) && Holds(after, addr, done + [t]) && !Within(t, done)
  {
    hide HistoryKey, ToAddr;
    var key := HistoryKey(t).value;
    var after := s.(history := s.history[key := t]);
    var grown := done + [t];
    assert forall i :: 0 <= i < |done| ==> Stored(s, done[i]);
    assert grown[|done|] == t;
    forall k | k in after.history && ToAddr(after.history[k], addr) ensures Within(after.history[k], grown) {
      if k != key {
        assert Within(s.history[k], done);
        var i :| 0 <= i < |done| && done[i] == s.history[k];
        assert grown[i] == s.history[k];
      }
    }
  }

  /** A successful loop stores what is new and totals everything. */
  lemma {:induction false} LoopStores(s: Store, addr: string, done: seq<Transfer>, ts: seq<Transfer>, total: int64)
    requires Keyed(s) && Holds(s, addr, done)
    requires PutIncoming(s, addr, ts, total).0.error.None?
    ensures var (o, sum) := PutIncoming(s, addr, ts, total);
            && Keyed(o.store) && Holds(o.store, addr, Extend(done, ts)) && sum == Wrap64(total + Sum(ts))
    ensures forall i :: 0 <= i < |ts| ==> ToAddr(ts[i], addr) && ts[i].amount > 0
    decreases |ts|
  {
    hide Holds, Keyed, Wrap64;
    if ts == [] {
      WrapExact(total);
    } else {
      var t := ts[0];
      var next := if Within(t, done) then done else done + [t];
      PutStores(s, addr, done, t);
      LoopStores(PutHistory(s, t).store, addr, next, ts[1..], Wrap64(total + t.amount));
      WrapSum(total + t.amount, Sum(ts[1..]));
      hide PutHistory, HistoryKey, Within;
      forall i | 0 <= i < |ts| ensures ToAddr(ts[i], addr) && ts[i].amount > 0 {
        if i > 0 { assert ts[i] == ts[1..][i - 1]; }
      }
    }
  }

  /** External funding of an address with no entries yet leaves each different record
      once; a reserved address leaves none. */
  lemma FundingStores(s: Store, addr: string, balance: int64, incoming: seq<Transfer>)
    requires Keyed(s) && Holds(s, addr, []) && FundAndRecord(s, addr, balance, incoming).outcome.error.None?
    ensures var f := FundAndRecord(s, addr, balance, incoming);
            && Keyed(f.outcome.store)
            && (if f.wasReserved then f.outcome.store.history == s.history && Holds(f.outcome.store, addr, [])
                else
                  && Holds(f.outcome.store, addr, Extend([], incoming)) && balance == Wrap64(Sum(incoming))
                  && incoming != [] && forall i :: 0 <= i < |incoming| ==> ToAddr(incoming[i], addr) && incoming[i].amount > 0)
  {
    hide FindFrom, Find, Wrap64, PutIncoming, ToAddr, Stored, Within, HistoryKey, Extend;
    var f := FundAndRecord(s, addr, balance, incoming);
    if !f.wasReserved {
      LoopStores(s, addr, [], incoming, 0);
      var p := PutIncoming(s, addr, incoming, 0).0;
      SameHistory(p.store, f.outcome.store, addr, Extend([], incoming));
    } else {
      SameHistory(s, f.outcome.store, addr, []);
    }
  }

  lemma SameHistory(s: Store, t: Store, addr: string, ts: seq<Transfer>)
    requires s.history == t.history
    ensures Holds(s, addr, ts) <==> Holds(t, addr, ts)
    ensures Keyed(s) <==> Keyed(t)
  {
  }

  lemma {:induction false} SumJoin(a: seq<Transfer>, b: seq<Transfer>)
    ensures Sum(a + b) == Sum(a) + Sum(b)
  {
    if a == [] {
      assert a + b == b;
    } else {
      assert (a + b)[0] == a[0] && (a + b)[1..] == a[1..] + b;
      SumJoin(a[1..], b);
    }
  }

  /** Leaving out repeats keeps the total exactly when there are none. */
  lemma {:induction false} ExtendSum(done: seq<Transfer>, ts: seq<Transfer>)
    requires forall i :: 0 <= i < |ts| ==> ts[i].amount > 0
    ensures Sum(Extend(done, ts)) <= Sum(done) + Sum(ts)
    ensures Sum(Extend(done, ts)) == Sum(done) + Sum(ts) <==>
              NoTwice(ts) && forall i :: 0 <= i < |ts| ==> !Within(ts[i], done)
    decreases |ts|
  {
    if ts != [] {
      var t, rest := ts[0], ts[1..];
      assert forall i :: 0 <= i < |rest| ==> rest[i] == ts[i + 1];
      if Within(t, done) {
        ExtendSum(done, rest);
      } else {
        ExtendSum(done + [t], rest);
        SumJoin(done, [t]);
        NewAlone(done, ts);
      }
    }
  }

  lemma NewAlone(done: seq<Transfer>, ts: seq<Transfer>)
    requires ts != [] && !Within(ts[0], done)
    ensures NoTwice(ts) && (forall i :: 0 <= i < |ts| ==> !Within(ts[i], done)) <==>
              NoTwice(ts[1..]) && forall i :: 0 <= i < |ts| - 1 ==> !Within(ts[1..][i], done + [ts[0]])
  {
    var grown, rest := done + [ts[0]], ts[1..];
    assert grown[|done|] == ts[0];
    assert forall i :: 0 <= i < |rest| ==> rest[i] == ts[i + 1];
    forall i | 0 <= i < |rest| ensures Within(rest[i], grown) <==> Within(rest[i], done) || rest[i] == ts[0] {
      if Within(rest[i], done) {
        var k :| 0 <= k < |done| && done[k] == rest[i];
        assert grown[k] == rest[i];
      }
      if Within(rest[i], grown) {
        var k :| 0 <= k < |grown| && grown[k] == rest[i];
        assert k < |done| ==> done[k] == rest[i];
      }
    }
    if NoTwice(rest) && forall i :: 0 <= i < |rest| ==> !Within(rest[i], grown) {
      forall i, j | 0 <= i < j < |ts| ensures ts[i] != ts[j] {
        assert ts[j] == rest[j - 1];
        if i > 0 { assert ts[i] == rest[i - 1]; }
      }
      forall i | 0 <= i < |ts| ensures !Within(ts[i], done) {
        if i > 0 { assert ts[i] == rest[i - 1]; }
      }
    }
  }

  /** What external funding stores adds up to the balance exactly when no record was
      given twice. */
  lemma StoredIsBalanceIff(s: Store, addr: string, balance: int64, incoming: seq<Transfer>)
    requires Keyed(s) && Holds(s, addr, []) && FundAndRecord(s, addr, balance, incoming).outcome.error.None?
    requires !FundAndRecord(s, addr, balance, incoming).wasReserved && Sum(incoming) <= MAX_INT64
    ensures Sum(Extend([], incoming)) == balance <==> NoTwice(incoming)
  {
    hide FundAndRecord, Holds, Keyed, Extend, NoTwice;
    FundingStores(s, addr, balance, incoming);
    ExtendSum([], incoming);
    SumPositive(incoming);
    WrapExact(Sum(incoming));
  }

  /** A record given twice counts twice towards the balance and is stored once. */
  lemma TwiceExample()
    ensures var s := Store(map[0 := Record(0, "addr", [], [], Fresh, false, [], [], "", false, "")], 1, map[], map[]);
            var t := Transfer("incoming", "t", "", "addr", "", 5, 0, 1);
            var f := FundAndRecord(s, "addr", 10, [t, t]);
            && Keyed(s) && Holds(s, "addr", []) && f.outcome.error.None? && !f.wasReserved
            && Holds(f.outcome.store, "addr", [t]) && Sum([t]) == 5
  {
    var s := Store(map[0 := Record(0, "addr", [], [], Fresh, false, [], [], "", false, "")], 1, map[], map[]);
    var t := Transfer("incoming", "t", "", "addr", "", 5, 0, 1);
    var ts := [t, t];
    assert Find(s, "addr") == Some(0);
    assert ts[1..] == [t] && [t][1..] == [];
    var once := PutHistory(s, t).store;
    assert PutHistory(once, t) == Done(once);
    WrapExact(5);
    WrapExact(10);
    assert PutIncoming(once, "addr", [t], 5) == (Done(once), 10);
  }

  lemma {:induction false} SumPositive(ts: seq<Transfer>)
    requires forall i :: 0 <= i < |ts| ==> ts[i].amount > 0
    ensures Sum(ts) >= 0
  {
    if ts != [] { SumPositive(ts[1..]); }
  }

  lemma {:induction false} ExtendAll(done: seq<Transfer>, ts: seq<Transfer>)
    requires NoTwice(done + ts)
    ensures Extend(done, ts) == done + ts
    decreases |ts|
  {
    if ts == [] {
      assert done + ts == done;
    } else {
      forall k | 0 <= k < |done| ensures done[k] != ts[0] {
        assert (done + ts)[k] == done[k] && (done + ts)[|done|] == ts[0];
      }
      assert (done + [ts[0]]) + ts[1..] == done + ts;
      ExtendAll(done + [ts[0]], ts[1..]);
    }
  }

  // ---------------------------------------------------------------------- every run

  /** The wallet itself records only outgoing transactions, through HistoryOp. */
  predicate OutgoingOnly(op: Op) { op.HistoryOp? ==> op.transfer.direction != "incoming" }

  /** Every incoming entry belongs to an address that has been funded. */
  predicate Clean(s: Store) {
    && Keyed(s)
    && forall k :: k in s.history && s.history[k].direction == "incoming" ==>
         Lookup(s, s.history[k].destination).Some? && Lookup(s, s.history[k].destination).value.state != Fresh
  }

  lemma FreshHoldsNothing(s: Store, addr: string)
    requires Clean(s) && (Lookup(s, addr).None? || Lookup(s, addr).value.state == Fresh)
    ensures Holds(s, addr, [])
  {
    hide Lookup;
  }

  lemma PutOther(s: Store, addr: string, ts: seq<Transfer>, t: Transfer)
    requires Keyed(s) && Holds(s, addr, ts) && !ToAddr(t, addr)
    ensures Keyed(PutHistory(s, t).store) && Holds(PutHistory(s, t).store, addr, ts)
  {
    hide HistoryKey, NoTwice, Within, ToAddr;
  }

  lemma {:induction false} LoopOther(s: Store, other: string, incoming: seq<Transfer>, total: int64, addr: string, ts: seq<Transfer>)
    requires Keyed(s) && Holds(s, addr, ts) && other != addr
    ensures var t := PutIncoming(s, other, incoming, total).0.store; Keyed(t) && Holds(t, addr, ts)
    decreases |incoming|
  {
    hide Holds, Keyed, Wrap64, PutHistory;
    if incoming != [] && incoming[0].direction == "incoming" && incoming[0].destination == other {
      PutOther(s, addr, ts, incoming[0]);
      LoopOther(PutHistory(s, incoming[0]).store, other, incoming[1..], Wrap64(total + incoming[0].amount), addr, ts);
    }
  }

  lemma FundingElsewhere(s: Store, other: string, balance: int64, incoming: seq<Transfer>, addr: string, ts: seq<Transfer>)
    requires Keyed(s) && Holds(s, addr, ts) && (other != addr || (Lookup(s, addr).Some? && Lookup(s, addr).value.state != Fresh))
    ensures var t := FundAndRecord(s, other, balance, incoming).outcome.store; Keyed(t) && Holds(t, addr, ts)
  {
    hide FindFrom, Find, PutIncoming, Holds, Keyed;
    var t := FundAndRecord(s, other, balance, incoming).outcome.store;
    if other != addr {
      LoopOther(s, other, incoming, 0, addr, ts);
    }
    if t.history == s.history {
      SameHistory(s, t, addr, ts);
    } else {
      SameHistory(PutIncoming(s, other, incoming, 0).0.store, t, addr, ts);
    }
  }

  lemma HistoryUntouched(s: Store, op: Op, derive: Deriver)
    requires !op.HistoryOp? && !op.FundHistoryOp?
    ensures Apply(s, op, derive).store.history == s.history
  {
    hide FindFrom, Find, CommitSpend, CommitRecovery, Observed;
    if op.SpendOp? || op.RecoverOp? { CommitsKeepHistory(s, op, derive); }
  }

  /** The entries of an address that is past FRESH never change again. */
  lemma StepHolds(s: Store, op: Op, addr: string, ts: seq<Transfer>, derive: Deriver)
    requires Keyed(s) && Holds(s, addr, ts) && OutgoingOnly(op)
    requires Lookup(s, addr).Some? && Lookup(s, addr).value.state != Fresh
    ensures var t := Apply(s, op, derive).store; Keyed(t) && Holds(t, addr, ts)
  {
    hide Holds, Keyed, Lookup, FundAndRecord, PutHistory;
    var t := Apply(s, op, derive).store;
    match op
    case HistoryOp(transfer) => PutOther(s, addr, ts, transfer);
    case FundHistoryOp(other, balance, incoming) => FundingElsewhere(s, other, balance, incoming, addr, ts);
    case _ =>
      HistoryUntouched(s, op, derive);
      SameHistory(s, t, addr, ts);
  }

  lemma {:induction false} RunHolds(s: Store, ops: seq<Op>, addr: string, ts: seq<Transfer>, derive: Deriver)
    requires Inv(s, derive) && RealBlobs(ops) && (forall i :: 0 <= i < |ops| ==> OutgoingOnly(ops[i]))
    requires Keyed(s) && Holds(s, addr, ts) && Lookup(s, addr).Some? && Lookup(s, addr).value.state != Fresh
    ensures var t := Run(s, ops, derive);
            Keyed(t) && Holds(t, addr, ts) && Lookup(t, addr).Some? && Lookup(t, addr).value.state != Fresh
    decreases |ops|
  {
    hide Inv, Holds, Keyed, Apply, Find, FindFrom, StoreForward;
    if ops != [] {
      var init, last := ops[..|ops| - 1], ops[|ops| - 1];
      var mid := Run(s, init, derive);
      RunHolds(s, init, addr, ts, derive);
      StepHolds(mid, last, addr, ts, derive);
      RunKeeps(s, init, derive);
      StepKeeps(mid, last, derive);
      FindStays(mid, Apply(mid, last, derive).store, addr, derive);
    }
  }

  lemma PutKeyed(s: Store, t: Transfer)
    requires Keyed(s)
    ensures Keyed(PutHistory(s, t).store)
    ensures forall k :: k in PutHistory(s, t).store.history ==>
              if k in s.history then PutHistory(s, t).store.history[k] == s.history[k] else PutHistory(s, t).store.history[k] == t
  {
    hide HistoryKey;
  }

  lemma {:induction false} LoopIncoming(s: Store, addr: string, incoming: seq<Transfer>, total: int64)
    requires Keyed(s)
    ensures var t := PutIncoming(s, addr, incoming, total).0.store;
            Keyed(t) && forall k :: k in t.history ==> (if k in s.history then t.history[k] == s.history[k] else ToAddr(t.history[k], addr))
    decreases |incoming|
  {
    hide Wrap64, HistoryKey, Keyed;
    if incoming != [] && ToAddr(incoming[0], addr) {
      var next := PutHistory(s, incoming[0]);
      PutKeyed(s, incoming[0]);
      if next.error.None? { LoopIncoming(next.store, addr, incoming[1..], Wrap64(total + incoming[0].amount)); }
    }
  }

  /** Keeping what was clean: lookups stay, so only new entries need a funded owner. */
  lemma CleanStays(s: Store, t: Store, derive: Deriver)
    requires Inv(s, derive) && Inv(t, derive) && StoreForward(s, t) && Clean(s) && Keyed(t) && HistoryKept(s, t)
    requires forall k :: k in t.history && k !in s.history && t.history[k].direction == "incoming" ==>
               Lookup(t, t.history[k].destination).Some? && Lookup(t, t.history[k].destination).value.state != Fresh
    ensures Clean(t)
  {
    hide Inv, StoreForward, Keyed, Find, FindFrom;
    forall k | k in t.history && t.history[k].direction == "incoming"
      ensures Lookup(t, t.history[k].destination).Some? && Lookup(t, t.history[k].destination).value.state != Fresh
    {
      if k in s.history { FindStays(s, t, t.history[k].destination, derive); }
    }
  }

  /** A successful funding call marks its address. */
  lemma FundedMarks(s: Store, addr: string, balance: int64, incoming: seq<Transfer>, derive: Deriver)
    requires Inv(s, derive) && FundAndRecord(s, addr, balance, incoming).outcome.error.None?
    ensures var t := FundAndRecord(s, addr, balance, incoming).outcome.store;
            Lookup(t, addr).Some? && Lookup(t, addr).value.state == Funded
  {
    hide FindFrom, Find, PutIncoming, Inv, StoreForward;
    IncomingKeeps(s, addr, incoming, 0);
    FundHistoryStep(s, addr, balance, incoming, derive);
    FindStays(s, FundAndRecord(s, addr, balance, incoming).outcome.store, addr, derive);
  }

  lemma FundingKeyed(s: Store, addr: string, balance: int64, incoming: seq<Transfer>)
    requires Keyed(s)
    ensures var f := FundAndRecord(s, addr, balance, incoming).outcome;
            && Keyed(f.store) && (f.error.Some? ==> f.store == s)
            && forall k :: k in f.store.history && k !in s.history ==> ToAddr(f.store.history[k], addr)
  {
    hide FindFrom, Find, PutIncoming, HistoryKey;
    LoopIncoming(s, addr, incoming, 0);
  }

  lemma StepClean(s: Store, op: Op, derive: Deriver)
    requires Inv(s, derive) && RealBlob(op) && Clean(s) && OutgoingOnly(op)
    ensures Clean(Apply(s, op, derive).store)
  {
    hide Inv, StoreForward, HistoryKept, FundAndRecord, HistoryKey, Lookup;
    var t := Apply(s, op, derive).store;
    StepKeeps(s, op, derive);
    match op
    case HistoryOp(transfer) => CleanStays(s, t, derive);
    case FundHistoryOp(addr, balance, incoming) =>
      FundingKeyed(s, addr, balance, incoming);
      if FundAndRecord(s, addr, balance, incoming).outcome.error.None? { FundedMarks(s, addr, balance, incoming, derive); }
      CleanStays(s, t, derive);
    case _ =>
      HistoryUntouched(s, op, derive);
      CleanStays(s, t, derive);
  }

  lemma {:induction false} ReachableClean(ops: seq<Op>, derive: Deriver)
    requires RealBlobs(ops) && forall i :: 0 <= i < |ops| ==> OutgoingOnly(ops[i])
    ensures Clean(Run(EMPTY, ops, derive))
    decreases |ops|
  {
    hide Inv, Apply, Clean;
    if ops == [] {
      EmptyClean();
    } else {
      ReachableClean(ops[..|ops| - 1], derive);
      ReachableInv(ops[..|ops| - 1], derive);
      StepClean(Run(EMPTY, ops[..|ops| - 1], derive), ops[|ops| - 1], derive);
    }
  }

  lemma EmptyClean()
    ensures Clean(EMPTY)
  {
  }

  /** Over any run: after an address is funded with history, its incoming entries are
      for good the records it was funded with, each once, or none if it was reserved. */
  lemma FundingConserves(before: seq<Op>, addr: string, balance: int64, incoming: seq<Transfer>, after: seq<Op>, derive: Deriver)
    requires RealBlobs(before) && forall i :: 0 <= i < |before| ==> OutgoingOnly(before[i])
    requires RealBlobs(after) && forall i :: 0 <= i < |after| ==> OutgoingOnly(after[i])
    requires FundAndRecord(Run(EMPTY, before, derive), addr, balance, incoming).outcome.error.None?
    ensures var f := FundAndRecord(Run(EMPTY, before, derive), addr, balance, incoming);
            var ts := if f.wasReserved then [] else Extend([], incoming);
            && Holds(Run(f.outcome.store, after, derive), addr, ts)
            && (!f.wasReserved && Sum(incoming) <= MAX_INT64 ==> (Sum(ts) == balance <==> NoTwice(incoming)))
  {
    hide Inv, Clean, FundAndRecord, Run, Holds, Keyed, Lookup, Extend, NoTwice;
    var s := Run(EMPTY, before, derive);
    ReachableInv(before, derive);
    ReachableClean(before, derive);
    FundedWasFresh(s, addr, balance, incoming);
    FreshHoldsNothing(s, addr);
    CleanKeyed(s);
    FundingStores(s, addr, balance, incoming);
    FundedMarks(s, addr, balance, incoming, derive);
    var f := FundAndRecord(s, addr, balance, incoming);
    FundHistoryStep(s, addr, balance, incoming, derive);
    RunHolds(f.outcome.store, after, addr, if f.wasReserved then [] else Extend([], incoming), derive);
    if !f.wasReserved && Sum(incoming) <= MAX_INT64 { StoredIsBalanceIff(s, addr, balance, incoming); }
  }

  lemma CleanKeyed(s: Store)
    requires Clean(s)
    ensures Keyed(s)
  {
    hide HistoryKey, Lookup;
  }

  lemma FundedWasFresh(s: Store, addr: string, balance: int64, incoming: seq<Transfer>)
    requires FundAndRecord(s, addr, balance, incoming).outcome.error.None?
    ensures Lookup(s, addr).Some? && Lookup(s, addr).value.state == Fresh
  {
    hide FindFrom, Find, PutIncoming;
  }

  // -------------------------------------------------------------- deposits are accepted

  predicate NoColon(x: string) { forall i :: 0 <= i < |x| ==> x[i] != ':' }

  predicate OwnTxids(ds: seq<Deposit>) { forall i, j :: 0 <= i < j < |ds| ==> ds[i].txid != ds[j].txid }

  lemma OnlyColon(a: string, b: string, x: string, y: string)
    requires NoColon(x) && NoColon(y) && a + ":" + b == x + ":" + y
    ensures a == x && b == y
  {
    var s := a + ":" + b;
    assert s[|a|] == ':' && s[|x|] == ':';
    assert forall i :: 0 <= i < |s| && i != |x| ==> s[i] == if i < |x| then x[i] else y[i - |x| - 1];
    assert |a| == |x|;
    assert a == s[..|a|] && x == s[..|x|] && b == s[|a| + 1..] && y == s[|x| + 1..];
  }

  /** Hexadecimal ids and bech32 addresses have no ':', so an incoming key names both. */
  lemma IncomingKeyNames(e: Transfer, txid: string, addr: string)
    requires NoColon(txid) && NoColon(addr) && HistoryKey(e) == Some("in:" + txid + ":" + addr)
    ensures ToAddr(e, addr) && e.txid == txid
  {
    var key := "in:" + txid + ":" + addr;
    assert key[0] == 'i' && key[3..] == txid + ":" + addr && ("out:" + e.txid)[0] == 'o';
    if e.direction == "incoming" {
      assert ("in:" + e.txid + ":" + e.destination)[3..] == e.txid + ":" + e.destination;
      OnlyColon(e.txid, e.destination, txid, addr);
    }
  }

  lemma {:induction false} LoopAccepts(s: Store, addr: string, ds: seq<Deposit>, at: Time, done: seq<Transfer>, total: int64)
    requires Keyed(s) && Holds(s, addr, done) && addr != "" && NoColon(addr) && at != 0
    requires OwnTxids(ds) && forall i :: 0 <= i < |ds| ==> ds[i].txid != "" && NoColon(ds[i].txid) && ds[i].amount > 0
    requires forall i, j :: 0 <= i < |ds| && 0 <= j < |done| ==> ds[i].txid != done[j].txid
    ensures PutIncoming(s, addr, Incoming(addr, ds, at), total).0.error.None?
    decreases |ds|
  {
    hide Holds, Keyed, Wrap64, HistoryKey, NoColon;
    if ds != [] {
      var t := Incoming(addr, ds, at)[0];
      assert Incoming(addr, ds, at)[1..] == Incoming(addr, ds[1..], at);
      DepositAccepted(s, addr, done, t);
      PutStores(s, addr, done, t);
      LoopAccepts(PutHistory(s, t).store, addr, ds[1..], at, done + [t], Wrap64(total + t.amount));
    }
  }

  lemma DepositAccepted(s: Store, addr: string, done: seq<Transfer>, t: Transfer)
    requires Keyed(s) && Holds(s, addr, done) && ToAddr(t, addr) && NoColon(addr) && NoColon(t.txid)
    requires t.txid != "" && addr != "" && t.amount > 0 && t.recordedAt != 0
    requires forall j :: 0 <= j < |done| ==> t.txid != done[j].txid
    ensures PutHistory(s, t).error.None? && !Within(t, done)
  {
    hide NoColon;
    var key := HistoryKey(t).value;
    if key in s.history {
      IncomingKeyNames(s.history[key], t.txid, addr);
      assert false;
    }
  }

  lemma {:induction false} SumIncoming(addr: string, ds: seq<Deposit>, at: Time)
    ensures Sum(Incoming(addr, ds, at)) == SumDeposits(ds)
    decreases |ds|
  {
    if ds != [] {
      var last := ds[|ds| - 1];
      var init := ds[..|ds| - 1];
      SumIncoming(addr, init, at);
      assert Incoming(addr, ds, at) == Incoming(addr, init, at) + Incoming(addr, [last], at);
      SumJoin(Incoming(addr, init, at), Incoming(addr, [last], at));
      assert Incoming(addr, [last], at)[1..] == [];
    }
  }

  /** Deposits with ids of their own that add up to the balance always fund a fresh
      address that is not reserved, and are then its whole incoming history. */
  lemma {:induction false} DepositsFund(s: Store, addr: string, balance: int64, ds: seq<Deposit>, at: Time)
    requires Clean(s) && Lookup(s, addr).Some? && Lookup(s, addr).value.state == Fresh && !Lookup(s, addr).value.reserved
    requires addr != "" && NoColon(addr) && at != 0 && ds != [] && OwnTxids(ds)
    requires forall i :: 0 <= i < |ds| ==> ds[i].txid != "" && NoColon(ds[i].txid) && ds[i].amount > 0
    requires SumDeposits(ds) == balance
    ensures var f := FundAndRecord(s, addr, balance, Incoming(addr, ds, at));
            && f.outcome.error.None? && !f.wasReserved
            && Holds(f.outcome.store, addr, Incoming(addr, ds, at)) && Sum(Incoming(addr, ds, at)) == balance
            && forall i :: 0 <= i < |ds| ==> Noted(f.outcome.store, addr, ds[i], at)
  {
    hide Noted, FundAndRecord, Lookup, PutIncoming, Clean, Holds, Keyed, NoColon, OwnTxids, Extend, SumDeposits, NoTwice, Sum, ToAddr, Wrap64;
    var ts := Incoming(addr, ds, at);
    CleanKeyed(s);
    FreshHoldsNothing(s, addr);
    LoopAccepts(s, addr, ds, at, [], 0);
    SumIncoming(addr, ds, at);
    LoopStores(s, addr, [], ts, 0);
    WrapExact(balance);
    LoopFunds(s, addr, balance, ts);
    FundingStores(s, addr, balance, ts);
    IncomingOnce(addr, ds, at);
    assert [] + ts == ts;
    ExtendAll([], ts);
    HeldNoted(FundAndRecord(s, addr, balance, ts).outcome.store, addr, ds, at);
  }

  /** The entry that a deposit leaves, under its own key. */
  predicate Noted(s: Store, addr: string, d: Deposit, at: Time) {
    var key := "in:" + d.txid + ":" + addr;
    key in s.history && s.history[key] == Transfer("incoming", d.txid, "", addr, "", d.amount, 0, at)
  }

  lemma HeldNoted(s: Store, addr: string, ds: seq<Deposit>, at: Time)
    requires Holds(s, addr, Incoming(addr, ds, at))
    ensures forall i :: 0 <= i < |ds| ==> Noted(s, addr, ds[i], at)
  {
    forall i | 0 <= i < |ds| ensures Noted(s, addr, ds[i], at) {
      assert Stored(s, Incoming(addr, ds, at)[i]);
    }
  }

  lemma {:induction false} IncomingOnce(addr: string, ds: seq<Deposit>, at: Time)
    requires OwnTxids(ds)
    ensures NoTwice(Incoming(addr, ds, at))
  {
  }

  lemma {:induction false} LoopFunds(s: Store, addr: string, balance: int64, ts: seq<Transfer>)
    requires Lookup(s, addr).Some? && Lookup(s, addr).value.state == Fresh && !Lookup(s, addr).value.reserved && ts != []
    requires PutIncoming(s, addr, ts, 0).0.error.None? && PutIncoming(s, addr, ts, 0).1 == balance
    ensures var f := FundAndRecord(s, addr, balance, ts); f.outcome.error.None? && !f.wasReserved
  {
    hide FindFrom, Find, PutIncoming;
  }

  lemma {:induction false} OccursTwice(ds: seq<Deposit>, i: nat, j: nat)
    requires i < j < |ds| && ds[i].txid == ds[j].txid
    ensures Occurrences(ds, ds[i].txid) >= 2
    decreases |ds|
  {
    if j == |ds| - 1 {
      OccursOnce(ds[..j], i);
    } else {
      OccursTwice(ds[..|ds| - 1], i, j);
    }
  }

  lemma {:induction false} OccursOnce(ds: seq<Deposit>, i: nat)
    requires i < |ds|
    ensures Occurrences(ds, ds[i].txid) >= 1
    decreases |ds|
  {
    if i < |ds| - 1 { OccursOnce(ds[..|ds| - 1], i); }
  }

  lemma {:induction false} ListedOnce(ds: seq<Deposit>, group: map<string, int64>)
    requires Lists(ds, group, 1)
    ensures OwnTxids(ds)
  {
    forall i, j | 0 <= i < j < |ds| ensures ds[i].txid != ds[j].txid {
      if ds[i].txid == ds[j].txid { OccursTwice(ds, i, j); }
    }
  }

  lemma {:induction false} ComplaintFree(us: seq<Unspent>, owners: map<string, string>)
    requires Complaint(us, owners).None?
    ensures forall i :: 0 <= i < |us| && Known(us[i], owners) ==> us[i].txid != "" && us[i].sats.Some?
  {
    if us != [] { ComplaintFree(us[..|us| - 1], owners); }
  }

  lemma {:induction false} ListedTxids(us: seq<Unspent>, owners: map<string, string>, addr: string, ds: seq<Deposit>,
                                       group: map<string, int64>)
    requires Complaint(us, owners).None? && Grouped(group, us, owners, addr) && Lists(ds, group, 1)
    requires forall i :: 0 <= i < |us| && Pays(us[i], owners, addr) ==> NoColon(us[i].txid)
    ensures forall i :: 0 <= i < |ds| ==> ds[i].txid != "" && NoColon(ds[i].txid)
  {
    hide NoColon, GroupTotal, Wrap64, Occurrences;
    ComplaintFree(us, owners);
    forall i | 0 <= i < |ds| ensures ds[i].txid != "" && NoColon(ds[i].txid) {
      assert ds[i].txid in Txids(us, owners, addr);
      var k :| 0 <= k < |us| && Pays(us[k], owners, addr) && us[k].txid == ds[i].txid;
      assert Known(us[k], owners);
    }
  }

  lemma NoDeposits()
    ensures SumDeposits([]) == 0
  {
  }

  /** From the scan to the history: what the three analyses report for a fresh address
      asked about once always funds it, and its incoming history is then its balance. */
  lemma {:induction false} ScanFunds(s: Store, us: seq<Unspent>, height: int64, owners: map<string, string>,
                                     addrs: seq<string>, addr: string, balances: map<string, int64>,
                                     statuses: map<string, Status>, all: map<string, seq<Deposit>>, groups: Groups, at: Time)
    requires Clean(s) && Lookup(s, addr).Some? && Lookup(s, addr).value.state == Fresh && !Lookup(s, addr).value.reserved
    requires addr != "" && NoColon(addr) && at != 0
    requires AllPositive(us, owners) && Total(us, owners, addr) <= MAX_INT64 && Complaint(us, owners).None?
    requires forall i :: 0 <= i < |us| && Pays(us[i], owners, addr) ==> NoColon(us[i].txid)
    requires Count(addrs, addr) == 1 && addr in Asked(addrs)
    requires Balanced(balances, us, owners, addrs) && StatusesOf(statuses, height, us, owners, addrs)
    requires Grouping(groups, us, owners, addrs) && Listing(all, groups, addrs) && statuses[addr].balance > 0
    ensures addr in all
    ensures var f := FundAndRecord(s, addr, statuses[addr].balance, Incoming(addr, all[addr], at));
            && f.outcome.error.None? && !f.wasReserved
            && Holds(f.outcome.store, addr, Incoming(addr, all[addr], at)) && Sum(Incoming(addr, all[addr], at)) == balances[addr]
            && forall i :: 0 <= i < |all[addr]| ==> Noted(f.outcome.store, addr, all[addr][i], at)
  {
    hide Noted, Clean, Lookup, NoColon, AllPositive, Total, Complaint, Balanced, StatusesOf, Lists, Grouped, Asked;
    hide SumDeposits, Holds, FundAndRecord, OwnTxids, Sum, Wrap64, Depth, PositiveTotal;
    FundingKeys(statuses, height, us, owners, addrs);
    AnalysesAgree(us, height, owners, addrs, addr, balances, statuses, all, groups);
    assert SumDeposits([]) == 0 by { NoDeposits(); }
    ListedOnce(all[addr], groups[addr]);
    ListedTxids(us, owners, addr, all[addr], groups[addr]);
    DepositsFund(s, addr, statuses[addr].balance, all[addr], at);
  }
}
