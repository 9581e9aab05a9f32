/** The recovery lock and single use, over whole runs of the wallet database. */
module Recovery {
  import opened Common
  import opened Keystore
  import opened Lifecycle

  // ------------------------------------------------------------ what a commit does

  /** A commit takes an address with no recovery in flight and splits what was
      authorized exactly: the submitted outpoints are locked, the others stay. */
  lemma CommitSplits(s: Store, from: string, change: string, txid: string, outpoints: seq<Outpoint>,
                     pending: seq<Broadcast>, derive: Deriver)
    requires Inv(s, derive)
    requires CommitRecovery(s, from, change, txid, outpoints, pending).error.None?
    ensures var k := Find(s, from).value;
            var r := s.addresses[k];
            var t := CommitRecovery(s, from, change, txid, outpoints, pending).store.addresses[k];
            && r.recoveryPending == [] && r.state == Spent && t.state == Spent
            && t.recoveryPending == outpoints && t.recoveryTxid == txid
            && (forall o :: o in r.recoverable <==> o in t.recoveryPending || o in t.recoverable)
            && (forall o :: !(o in t.recoveryPending && o in t.recoverable))
            && |r.recoverable| == |t.recoveryPending| + |t.recoverable|
            && (t.hasRecoverable <==> t.recoverable != [])
  {
    hide FindFrom, ChangeError, AddBroadcast;
    var k := Find(s, from).value;
    var r := s.addresses[k];
    ChangeIsOther(s, change, k);
    RemainingWithin(r.recoverable, outpoints);
    RemainingSize(r.recoverable, outpoints);
  }

  /** What is left keeps its order. */
  lemma {:induction false} RemainingParts(a: seq<Outpoint>, b: seq<Outpoint>, selected: seq<Outpoint>)
    ensures Remaining(a + b, selected) == Remaining(a, selected) + Remaining(b, selected)
    decreases |b|
  {
    if b == [] {
      assert a + b == a;
    } else {
      var init := b[..|b| - 1];
      assert (a + b)[..|a + b| - 1] == a + init && (a + b)[|a + b| - 1] == b[|b| - 1];
      RemainingParts(a, init, selected);
    }
  }

  lemma RemainingOne(o: Outpoint, selected: seq<Outpoint>)
    ensures Remaining([o], selected) == if o in selected then [] else [o]
  {
    assert [o][..0] == [];
  }

  /** Removing `selected` from `authorized`, both without repeats, leaves the rest. */
  lemma {:induction false} RemainingSize(authorized: seq<Outpoint>, selected: seq<Outpoint>)
    requires NoRepeats(authorized) && NoRepeats(selected)
    requires forall i :: 0 <= i < |selected| ==> selected[i] in authorized
    ensures |Remaining(authorized, selected)| + |selected| == |authorized|
    decreases |authorized|
  {
    AnyAuthorized(authorized, selected);
    if authorized != [] {
      var init, last := authorized[..|authorized| - 1], authorized[|authorized| - 1];
      assert authorized == init + [last];
      if i :| 0 <= i < |selected| && selected[i] == last {
        var rest := selected[..i] + selected[i + 1..];
        RemainingSize(init, rest);
        hide NoRepeats;
        SameRemaining(init, selected, rest, last);
      } else {
        RemainingSize(init, selected);
      }
    }
  }

  lemma AnyAuthorized(authorized: seq<Outpoint>, selected: seq<Outpoint>)
    requires forall i :: 0 <= i < |selected| ==> selected[i] in authorized
    ensures selected != [] ==> authorized != []
  {
    if selected != [] { assert selected[0] in authorized; }
  }

  lemma {:induction false} SameRemaining(os: seq<Outpoint>, selected: seq<Outpoint>, rest: seq<Outpoint>, last: Outpoint)
    requires last !in os
    requires forall o :: o in rest || o == last <==> o in selected || o == last
    ensures Remaining(os, selected) == Remaining(os, rest)
  {
    if os != [] {
      assert os[|os| - 1] in os && os[|os| - 1] != last;
      SameRemaining(os[..|os| - 1], selected, rest, last);
    }
  }

  // --------------------------------------------------------------- one step of a lock

  predicate Locked(s: Store, i: nat, o: Outpoint) { i in s.addresses && o in s.addresses[i].recoveryPending }

  predicate Authorized(s: Store, i: nat, o: Outpoint) { i in s.addresses && o in s.addresses[i].recoverable }

  /** `op` shows that none of the outpoints locked at index `i` is unspent any more. */
  predicate Releases(s: Store, op: Op, i: nat) {
    && op.ObserveOp? && Find(s, op.addr) == Some(i) && i in s.addresses
    && !Meet(s.addresses[i].recoveryPending, op.current)
  }

  lemma LockedNotAuthorized(s: Store, i: nat, o: Outpoint, derive: Deriver)
    requires Inv(s, derive) && Locked(s, i, o)
    ensures !Authorized(s, i, o)
  {
    var r := s.addresses[i];
    assert Good(r, i, derive);
    var j :| 0 <= j < |r.recoveryPending| && r.recoveryPending[j] == o;
  }

  /** What one call can do to the locks of a record. */
  predicate LockStep(r: Record, t: Record) { t.recoveryPending == r.recoveryPending }

  lemma CommitsKeepLocks(s: Store, op: Op, i: nat, derive: Deriver)
    requires i in s.addresses && s.addresses[i].recoveryPending != [] && (op.SpendOp? || op.RecoverOp?)
    ensures i in Apply(s, op, derive).store.addresses && LockStep(s.addresses[i], Apply(s, op, derive).store.addresses[i])
  {
    hide FindFrom, Find, AddBroadcast, ChangeError, Authorizes, Remaining, Reserve, CommitSpend, CommitRecovery;
    if op.SpendOp? {
      SpendResult(s, op.from, op.change, op.txid, op.pending);
    } else {
      RecoverResult(s, op.from, op.change, op.txid, op.outpoints, op.pending);
    }
    if Apply(s, op, derive).error.None? {
      ReserveKeepsLocks(s, op.change, i);
    }
  }

  lemma ReserveKeepsLocks(s: Store, change: string, i: nat)
    requires i in s.addresses && ChangeError(s, change).None?
    ensures i in Reserve(s, change).addresses && LockStep(s.addresses[i], Reserve(s, change).addresses[i])
  {
    hide FindFrom, Find;
  }

  lemma FundingKeepsLocks(s: Store, addr: string, balance: int64, incoming: seq<Transfer>, i: nat)
    requires i in s.addresses
    ensures var t := FundAndRecord(s, addr, balance, incoming).outcome.store;
            i in t.addresses && LockStep(s.addresses[i], t.addresses[i])
  {
    hide FindFrom, Find, FundAndRecord;
    FundingResult(s, addr, balance, incoming);
  }

  lemma GenerateKeepsOld(s: Store, derive: Deriver, blob: Option<seq<byte>>, i: nat)
    requires i in s.addresses && i < s.nextIndex
    ensures var t := Generate(s, derive, blob).store; i in t.addresses && t.addresses[i] == s.addresses[i]
  {
  }

  lemma OtherStepsKeepLocks(s: Store, op: Op, i: nat, derive: Deriver)
    requires Inv(s, derive) && i in s.addresses && s.addresses[i].recoveryPending != []
    requires !op.ObserveOp?
    ensures i in Apply(s, op, derive).store.addresses && LockStep(s.addresses[i], Apply(s, op, derive).store.addresses[i])
  {
    hide FindFrom, Find, LockStep, CommitSpend, CommitRecovery, Generate, FundAndRecord, Good, Backed;
    match op
    case SpendOp(_, _, _, _) => CommitsKeepLocks(s, op, i, derive);
    case RecoverOp(_, _, _, _, _) => CommitsKeepLocks(s, op, i, derive);
    case FundHistoryOp(addr, balance, incoming) => FundingKeepsLocks(s, addr, balance, incoming, i);
    case GenerateOp(blob) => GenerateKeepsOld(s, derive, blob, i); SameLocks(s.addresses[i]);
    case DeleteOp(_) => SameLocks(s.addresses[i]);
    case HistoryOp(_) => SameLocks(s.addresses[i]);
    case _ => ReplacingKeepsLocks(s, op, i, derive);
  }

  lemma SameLocks(r: Record)
    ensures LockStep(r, r)
  {
  }

  lemma ReplacingKeepsLocks(s: Store, op: Op, i: nat, derive: Deriver)
    requires i in s.addresses && (op.FundOp? || op.SpentOp? || op.RetireOp?)
    ensures i in Apply(s, op, derive).store.addresses && LockStep(s.addresses[i], Apply(s, op, derive).store.addresses[i])
  {
    hide FindFrom, Find, Apply, Replaceable;
    SimpleResult(s, op, derive);
  }

  /** A locked outpoint stays locked, and is not authorized again, through every call
      except an observation that finds none of the locked ones unspent; and even that
      call does not authorize it again. */
  lemma LockHeld(s: Store, op: Op, i: nat, o: Outpoint, derive: Deriver)
    requires Inv(s, derive) && RealBlob(op) && Locked(s, i, o)
    ensures var t := Apply(s, op, derive).store;
            !Authorized(t, i, o) && (Locked(t, i, o) || Releases(s, op, i))
  {
    var t := Apply(s, op, derive).store;
    StepKeeps(s, op, derive);
    if op.ObserveOp? {
      ObserveHolds(s, op, i, o, derive);
    } else {
      OtherStepsKeepLocks(s, op, i, derive);
      LockedNotAuthorized(t, i, o, derive);
    }
  }

  lemma ObserveHolds(s: Store, op: Op, i: nat, o: Outpoint, derive: Deriver)
    requires Inv(s, derive) && op.ObserveOp? && Locked(s, i, o)
    ensures var t := Apply(s, op, derive).store;
            !Authorized(t, i, o) && (Locked(t, i, o) || Releases(s, op, i))
  {
    hide FindFrom, Find, Apply, Inv;
    LockedNotAuthorized(s, i, o, derive);
    SimpleResult(s, op, derive);
    var r := s.addresses[i];
    var j :| 0 <= j < |r.recoveryPending| && r.recoveryPending[j] == o;
    assert !Meet(r.recoveryPending, op.current) ==> o !in op.current;
  }

  /** What an observation of a spent address decides: its locks hold exactly while any
      of them is unspent, and meanwhile, or before maturity, nothing is authorized. */
  lemma ObservationDecides(s: Store, addr: string, current: seq<Outpoint>, mature: bool)
    requires Observe(s, addr, current, mature).outcome.error.None?
    ensures Find(s, addr).Some?
    ensures var i := Find(s, addr).value;
            var t := Observe(s, addr, current, mature).outcome.store;
            var held := Meet(s.addresses[i].recoveryPending, current);
            && (forall o :: Locked(t, i, o) <==> Locked(s, i, o) && held)
            && (forall o :: Authorized(t, i, o) <==> o in current && mature && !held)
            && (Observe(s, addr, current, mature).became <==>
                  !held && mature && current != [] && !s.addresses[i].hasRecoverable)
  {
    hide FindFrom, Find;
  }

  // ---------------------------------------------------------------- over a whole run

  /** In every run that starts with `o` locked and ends with it authorized again,
      some observation in between found none of the outpoints then locked. */
  lemma {:induction false} ReauthorizedOnlyAfterRelease(s: Store, ops: seq<Op>, i: nat, o: Outpoint, derive: Deriver)
    requires Inv(s, derive) && RealBlobs(ops) && Locked(s, i, o)
    ensures Locked(Run(s, ops, derive), i, o)
         || exists n :: 0 <= n < |ops| && Locked(Run(s, ops[..n], derive), i, o) && Releases(Run(s, ops[..n], derive), ops[n], i)
    ensures Authorized(Run(s, ops, derive), i, o) ==>
              exists n :: 0 <= n < |ops| - 1 && Locked(Run(s, ops[..n], derive), i, o) && Releases(Run(s, ops[..n], derive), ops[n], i)
    decreases |ops|
  {
    hide Inv, Locked, Authorized, Releases;
    RunKeeps(s, ops, derive);
    if ops != [] {
      var init, last := ops[..|ops| - 1], |ops| - 1;
      var mid := Run(s, init, derive);
      ReauthorizedOnlyAfterRelease(s, init, i, o, derive);
      RunKeeps(s, init, derive);
      if Locked(mid, i, o) {
        LockHeld(mid, ops[last], i, o, derive);
        assert ops[..last] == init;
      } else {
        var n :| 0 <= n < |init| && Locked(Run(s, init[..n], derive), i, o) && Releases(Run(s, init[..n], derive), init[n], i);
        assert init[..n] == ops[..n] && init[n] == ops[n];
      }
    } else {
      LockedNotAuthorized(s, i, o, derive);
    }
  }

  // ------------------------------------------------------------------- single use

  predicate Succeeds(s: Store, op: Op, derive: Deriver) { Apply(s, op, derive).error.None? }

  predicate SpendsFrom(op: Op, addr: string) { op.SpendOp? && op.from == addr }

  predicate ReservesChange(op: Op, addr: string) { (op.SpendOp? || op.RecoverOp?) && op.change == addr && addr != "" }

  /** How many calls of the run both match and succeed. */
  function Successes(s: Store, ops: seq<Op>, derive: Deriver, matches: Op -> bool): nat
    decreases |ops|
  {
    if ops == [] then 0
    else
      var init := ops[..|ops| - 1];
      var last := ops[|ops| - 1];
      Successes(s, init, derive, matches) +
      if matches(last) && Succeeds(Run(s, init, derive), last, derive) then 1 else 0
  }

  predicate SpentAlready(s: Store, i: nat) { i in s.addresses && Rank(s.addresses[i].state) >= 2 }

  predicate UsedAsChange(s: Store, i: nat) { i in s.addresses && (s.addresses[i].reserved || Rank(s.addresses[i].state) >= 1) }

  lemma SpendUses(s: Store, op: Op, i: nat, derive: Deriver)
    requires Inv(s, derive) && Injective(derive) && SpendsFrom(op, derive(i).address) && Succeeds(s, op, derive)
    ensures !SpentAlready(s, i) && SpentAlready(Apply(s, op, derive).store, i)
  {
    hide FindFrom, Find, ChangeError, AddBroadcast, Reserve, CommitSpend;
    SpendResult(s, op.from, op.change, op.txid, op.pending);
    FindDerived(s, op.from, derive);
    assert Find(s, op.from).value == i;
  }

  lemma ChangeUses(s: Store, op: Op, i: nat, derive: Deriver)
    requires Inv(s, derive) && Injective(derive) && ReservesChange(op, derive(i).address) && Succeeds(s, op, derive)
    ensures !UsedAsChange(s, i) && UsedAsChange(Apply(s, op, derive).store, i)
  {
    hide FindFrom, Find, AddBroadcast, CommitSpend, CommitRecovery, Remaining, Authorizes;
    if op.SpendOp? {
      SpendResult(s, op.from, op.change, op.txid, op.pending);
    } else {
      RecoverResult(s, op.from, op.change, op.txid, op.outpoints, op.pending);
    }
    FindDerived(s, op.change, derive);
    assert Find(s, op.change).value == i;
    ChangeIsOther(s, op.change, Find(s, op.from).value);
  }

  lemma UseStays(s: Store, op: Op, i: nat, derive: Deriver)
    requires Inv(s, derive) && RealBlob(op)
    ensures SpentAlready(s, i) ==> SpentAlready(Apply(s, op, derive).store, i)
    ensures UsedAsChange(s, i) ==> UsedAsChange(Apply(s, op, derive).store, i)
  {
    hide Inv, Apply;
    StepKeeps(s, op, derive);
  }

  /** In any run at most one normal spend of an address is ever committed. */
  lemma {:induction false} OneSpendEach(ops: seq<Op>, i: nat, derive: Deriver)
    requires RealBlobs(ops) && Injective(derive)
    ensures var spends := Successes(EMPTY, ops, derive, op => SpendsFrom(op, derive(i).address));
            spends <= 1 && (spends == 1 ==> SpentAlready(Run(EMPTY, ops, derive), i))
    decreases |ops|
  {
    hide Inv, Apply, SpentAlready;
    if ops != [] {
      var init, last := ops[..|ops| - 1], ops[|ops| - 1];
      var mid := Run(EMPTY, init, derive);
      OneSpendEach(init, i, derive);
      ReachableInv(init, derive);
      UseStays(mid, last, i, derive);
      if SpendsFrom(last, derive(i).address) && Succeeds(mid, last, derive) {
        SpendUses(mid, last, i, derive);
      }
    }
  }

  /** In any run an address is reserved as change by at most one committed transaction,
      normal or recovery. */
  lemma {:induction false} OneReservationEach(ops: seq<Op>, i: nat, derive: Deriver)
    requires RealBlobs(ops) && Injective(derive)
    ensures var reservations := Successes(EMPTY, ops, derive, op => ReservesChange(op, derive(i).address));
            reservations <= 1 && (reservations == 1 ==> UsedAsChange(Run(EMPTY, ops, derive), i))
    decreases |ops|
  {
    hide Inv, Apply, UsedAsChange;
    if ops != [] {
      var init, last := ops[..|ops| - 1], ops[|ops| - 1];
      var mid := Run(EMPTY, init, derive);
      OneReservationEach(init, i, derive);
      ReachableInv(init, derive);
      UseStays(mid, last, i, derive);
      if ReservesChange(last, derive(i).address) && Succeeds(mid, last, derive) {
        ChangeUses(mid, last, i, derive);
      }
    }
  }
}
