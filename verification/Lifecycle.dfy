/** What holds of the wallet database after any run of calls, and how one call can
    move an address forward. */
module Lifecycle {
  import opened Common
  import opened Keystore

  // ------------------------------------------------------------------ invariants

  function Rank(s: State): nat {
    match s
    case Fresh => 0
    case Funded => 1
    case SpendPending => 2
    case Spent => 3
    case Retired => 4
  }

  predicate Good(r: Record, i: nat, derive: Deriver) {
    && r.index == i && r.address == derive(i).address && r.publicKey == derive(i).publicKey
    && (r.reserved ==> r.state == Fresh)
    && (r.encSeed == [] <==> r.state == Retired)
    && (r.hasRecoverable <==> r.recoverable != [])
    && (r.recoverable != [] || r.recoveryPending != [] ==> r.state == Spent)
    && !Meet(r.recoveryPending, r.recoverable)
    && (r.recoveryTxid != "" ==> r.recoveryPending != [])
    && (Rank(r.state) < 2 ==> r.spendTxid == "")
  }

  /** A stored broadcast belongs to the step that its source has taken. */
  predicate Backed(s: Store, txid: string, b: Broadcast, derive: Deriver) {
    && b.txid == txid
    && (b.kind == "spend" || b.kind == "recovery")
    && exists i :: 0 <= i < s.nextIndex && i in s.addresses && BackedBy(s.addresses[i], b, derive(i).address)
  }

  predicate BackedBy(r: Record, b: Broadcast, address: string) {
    && b.source == address
    && (b.kind == "spend" ==> Rank(r.state) >= 2 && r.spendTxid == b.txid)
    && (b.kind == "recovery" ==> Rank(r.state) >= 3)
  }

  ghost predicate Inv(s: Store, derive: Deriver) {
    && (forall i :: i in s.addresses <==> 0 <= i < s.nextIndex)
    && (forall i :: i in s.addresses ==> Good(s.addresses[i], i, derive))
    && (forall t :: t in s.pending ==> Backed(s, t, s.pending[t], derive))
  }

  /** Different indices derive different addresses. */
  ghost predicate Injective(derive: Deriver) {
    forall i: nat, j: nat :: derive(i).address == derive(j).address ==> i == j
  }

  /** A derivation that succeeds hands over a non-empty blob. */
  predicate RealBlob(op: Op) { op.GenerateOp? && op.blob.Some? ==> op.blob.value != [] }

  lemma FindDerived(s: Store, addr: string, derive: Deriver)
    requires Inv(s, derive) && Find(s, addr).Some?
    ensures derive(Find(s, addr).value).address == addr && Good(s.addresses[Find(s, addr).value], Find(s, addr).value, derive)
  {
  }

  /** Every record is found by its own address. */
  lemma FindOwn(s: Store, i: nat, derive: Deriver)
    requires Inv(s, derive) && Injective(derive) && i < s.nextIndex
    ensures Find(s, derive(i).address) == Some(i)
  {
    hide FindFrom;
    var k := Find(s, derive(i).address);
    assert i in s.addresses;
    if k.Some? { FindDerived(s, derive(i).address, derive); }
  }

  // ------------------------------------------------------------- one step forward

  /** How a record may change in one call. */
  predicate Forward(r: Record, t: Record) {
    && t.index == r.index && t.address == r.address && t.publicKey == r.publicKey
    && Rank(r.state) <= Rank(t.state) <= Rank(r.state) + 1
    && (r.reserved ==> t.reserved || Rank(t.state) > 0)
    && (Rank(r.state) >= 2 ==> t.spendTxid == r.spendTxid)
    && (t.state != Retired ==> t.encSeed == r.encSeed)
  }

  predicate StoreForward(s: Store, t: Store) {
    && s.nextIndex <= t.nextIndex <= s.nextIndex + 1
    && forall i :: i in s.addresses ==> i in t.addresses && Forward(s.addresses[i], t.addresses[i])
  }

  predicate HistoryKept(s: Store, t: Store) {
    forall k :: k in s.history ==> k in t.history && t.history[k] == s.history[k]
  }

  lemma BackedStays(s: Store, t: Store, txid: string, derive: Deriver)
    requires Inv(s, derive) && StoreForward(s, t) && txid in s.pending
    ensures Backed(t, txid, s.pending[txid], derive)
  {
    var b := s.pending[txid];
    var i :| 0 <= i < s.nextIndex && i in s.addresses && BackedBy(s.addresses[i], b, derive(i).address);
    assert BackedBy(t.addresses[i], b, derive(i).address);
  }

  /** The step shared by most calls: one record replaced. */
  lemma PutStep(s: Store, k: nat, r: Record, derive: Deriver)
    requires Inv(s, derive) && k in s.addresses && Good(r, k, derive) && Forward(s.addresses[k], r)
    ensures Inv(Put(s, k, r), derive) && StoreForward(s, Put(s, k, r))
  {
    hide Good, Forward, Backed;
    var t := Put(s, k, r);
    forall i | i in s.addresses ensures Forward(s.addresses[i], t.addresses[i]) {
      ForwardReflexive(s.addresses[i]);
    }
    forall txid | txid in t.pending ensures Backed(t, txid, t.pending[txid], derive) {
      BackedStays(s, t, txid, derive);
    }
  }

  lemma ForwardReflexive(r: Record)
    ensures Forward(r, r)
  {
  }

  lemma ReserveStep(s: Store, change: string, derive: Deriver)
    requires Inv(s, derive) && ChangeError(s, change).None?
    ensures Inv(Reserve(s, change), derive) && StoreForward(s, Reserve(s, change))
    ensures Reserve(s, change) == s.(addresses := Reserve(s, change).addresses)
    ensures forall i :: i in s.addresses && !(change != "" && Find(s, change) == Some(i)) ==>
              Reserve(s, change).addresses[i] == s.addresses[i]
  {
    hide FindFrom, Find, Backed;
    if change != "" {
      var k := Find(s, change).value;
      PutStep(s, k, s.addresses[k].(reserved := true), derive);
    } else {
      forall i | i in s.addresses ensures Forward(s.addresses[i], s.addresses[i]) { ForwardReflexive(s.addresses[i]); }
    }
  }

  /** A broadcast that may be added is new, complete, and the one that the step names. */
  lemma AddedOne(s: Store, txid: string, source: string, kind: string, pending: seq<Broadcast>)
    requires AddBroadcast(s, txid, source, kind, pending).error.None?
    ensures var after := AddBroadcast(s, txid, source, kind, pending).store.pending;
            if pending == [] then after == s.pending
            else
              && txid !in s.pending && after == s.pending[txid := pending[0]]
              && pending[0].txid == txid && pending[0].source == source && pending[0].kind == kind
              && (kind == "spend" || kind == "recovery")
  {
  }

  /** The writes of either commit. */
  lemma CommitStep(s: Store, k: nat, r: Record, change: string, txid: string, kind: string, pending: seq<Broadcast>, derive: Deriver)
    requires Inv(s, derive) && k in s.addresses && Good(r, k, derive) && Forward(s.addresses[k], r)
    requires ChangeError(s, change).None? && !(change != "" && Find(s, change) == Some(k))
    requires AddBroadcast(s, txid, derive(k).address, kind, pending).error.None?
    requires kind == "spend" ==> Rank(r.state) >= 2 && r.spendTxid == txid
    requires kind == "recovery" ==> Rank(r.state) >= 3
    ensures var t := Put(Reserve(s, change), k, r).(pending := AddBroadcast(s, txid, derive(k).address, kind, pending).store.pending);
            Inv(t, derive) && StoreForward(s, t)
  {
    hide FindFrom, Find, Good, Forward, ChangeError, Backed, Reserve, AddBroadcast, Rank;
    ReserveStep(s, change, derive);
    var mid := Reserve(s, change);
    PutStep(mid, k, r, derive);
    AddedOne(s, txid, derive(k).address, kind, pending);
    CommitBacked(s, Put(mid, k, r), k, txid, kind, pending, derive);
  }

  lemma CommitBacked(s: Store, mid: Store, k: nat, txid: string, kind: string, pending: seq<Broadcast>, derive: Deriver)
    requires Inv(s, derive) && Inv(mid, derive) && StoreForward(s, mid) && mid.pending == s.pending && k in mid.addresses
    requires AddBroadcast(s, txid, derive(k).address, kind, pending).error.None?
    requires kind == "spend" ==> Rank(mid.addresses[k].state) >= 2 && mid.addresses[k].spendTxid == txid
    requires kind == "recovery" ==> Rank(mid.addresses[k].state) >= 3
    ensures var t := mid.(pending := AddBroadcast(s, txid, derive(k).address, kind, pending).store.pending);
            Inv(t, derive) && StoreForward(s, t)
  {
    hide Good, Forward, Backed, AddBroadcast, Rank;
    AddedOne(s, txid, derive(k).address, kind, pending);
    var t := mid.(pending := AddBroadcast(s, txid, derive(k).address, kind, pending).store.pending);
    forall id | id in t.pending ensures Backed(t, id, t.pending[id], derive) {
      if id in s.pending {
        BackedStays(s, t, id, derive);
      } else {
        assert BackedBy(t.addresses[k], t.pending[id], derive(k).address);
        BackedNow(t, id, k, derive);
      }
    }
  }

  lemma BackedNow(s: Store, id: string, k: nat, derive: Deriver)
    requires k in s.addresses && k < s.nextIndex && id in s.pending && s.pending[id].txid == id
    requires s.pending[id].kind == "spend" || s.pending[id].kind == "recovery"
    requires BackedBy(s.addresses[k], s.pending[id], derive(k).address)
    ensures Backed(s, id, s.pending[id], derive)
  {
  }

  lemma ChangeIsOther(s: Store, change: string, k: nat)
    requires ChangeError(s, change).None? && k in s.addresses && s.addresses[k].state != Fresh
    ensures !(change != "" && Find(s, change) == Some(k))
  {
  }

  /** An address once in the index is always found at the same place. */
  lemma FindStays(s: Store, t: Store, addr: string, derive: Deriver)
    requires Inv(s, derive) && Inv(t, derive) && StoreForward(s, t) && Find(s, addr).Some?
    ensures Find(t, addr) == Find(s, addr) && Forward(s.addresses[Find(s, addr).value], t.addresses[Find(s, addr).value])
  {
    hide FindFrom, Find, Good, Backed;
    var k := Find(s, addr).value;
    assert k in s.addresses && k in t.addresses;
    var m := Find(t, addr);
    if m.None? || m.value > k {
      assert t.addresses[k].address == addr;
    }
  }

  lemma GenerateStep(s: Store, derive: Deriver, blob: Option<seq<byte>>)
    requires Inv(s, derive) && RealBlob(GenerateOp(blob))
    ensures Inv(Generate(s, derive, blob).store, derive) && StoreForward(s, Generate(s, derive, blob).store)
  {
    hide Backed, Rank;
    var t := Generate(s, derive, blob).store;
    assert StoreForward(s, t);
    forall txid | txid in t.pending ensures Backed(t, txid, t.pending[txid], derive) {
      BackedStays(s, t, txid, derive);
    }
  }

  lemma {:induction false} RemainingWithin(authorized: seq<Outpoint>, selected: seq<Outpoint>)
    ensures forall o :: o in Remaining(authorized, selected) <==> o in authorized && o !in selected
  {
    if authorized != [] {
      RemainingWithin(authorized[..|authorized| - 1], selected);
      assert authorized == authorized[..|authorized| - 1] + [authorized[|authorized| - 1]];
    }
  }

  /** Where a committed spend leaves the store. */
  function SpendWrites(s: Store, k: nat, change: string, txid: string): Store
    requires k in s.addresses && ChangeError(s, change).None?
  {
    Put(Reserve(s, change), k, s.addresses[k].(state := SpendPending, spendTxid := txid))
  }

  lemma SpendResult(s: Store, from: string, change: string, txid: string, pending: seq<Broadcast>)
    ensures var t := CommitSpend(s, from, change, txid, pending);
            if t.error.Some? then t.store == s
            else
              && Find(s, from).Some? && s.addresses[Find(s, from).value].state == Funded && ChangeError(s, change).None?
              && AddBroadcast(s, txid, from, "spend", pending).error.None?
              && t.store == SpendWrites(s, Find(s, from).value, change, txid).(
                   pending := AddBroadcast(s, txid, from, "spend", pending).store.pending)
  {
    hide FindFrom, Find, AddBroadcast, ChangeError, Reserve;
  }

  function RecoveryWrites(r: Record, txid: string, outpoints: seq<Outpoint>): Record {
    var rest := Remaining(r.recoverable, outpoints);
    r.(recoverable := rest, hasRecoverable := rest != [], recoveryPending := outpoints, recoveryTxid := txid)
  }

  lemma RecoverResult(s: Store, from: string, change: string, txid: string, outpoints: seq<Outpoint>, pending: seq<Broadcast>)
    ensures var t := CommitRecovery(s, from, change, txid, outpoints, pending);
            if t.error.Some? then t.store == s
            else
              && Find(s, from).Some?
              && (var r := s.addresses[Find(s, from).value];
                  && r.state == Spent && r.recoveryPending == [] && r.hasRecoverable && Authorizes(r.recoverable, outpoints)
                  && ChangeError(s, change).None? && AddBroadcast(s, txid, from, "recovery", pending).error.None?
                  && t.store == Put(Reserve(s, change), Find(s, from).value, RecoveryWrites(r, txid, outpoints)).(
                       pending := AddBroadcast(s, txid, from, "recovery", pending).store.pending))
  {
    hide FindFrom, Find, AddBroadcast, ChangeError, Reserve, Remaining, Authorizes;
  }

  lemma SpendStep(s: Store, from: string, change: string, txid: string, pending: seq<Broadcast>, derive: Deriver)
    requires Inv(s, derive)
    ensures var t := CommitSpend(s, from, change, txid, pending).store; Inv(t, derive) && StoreForward(s, t)
  {
    hide FindFrom, Backed, AddBroadcast, ChangeError, Reserve, CommitSpend;
    SpendResult(s, from, change, txid, pending);
    if CommitSpend(s, from, change, txid, pending).error.None? {
      FindDerived(s, from, derive);
      var k := Find(s, from).value;
      ChangeIsOther(s, change, k);
      CommitStep(s, k, s.addresses[k].(state := SpendPending, spendTxid := txid), change, txid, "spend", pending, derive);
    } else {
      Unchanged(s);
    }
  }

  lemma RecoverStep(s: Store, from: string, change: string, txid: string, outpoints: seq<Outpoint>,
                    pending: seq<Broadcast>, derive: Deriver)
    requires Inv(s, derive)
    ensures var t := CommitRecovery(s, from, change, txid, outpoints, pending).store; Inv(t, derive) && StoreForward(s, t)
  {
    hide FindFrom, Backed, AddBroadcast, ChangeError, Reserve, CommitRecovery;
    RecoverResult(s, from, change, txid, outpoints, pending);
    if CommitRecovery(s, from, change, txid, outpoints, pending).error.None? {
      FindDerived(s, from, derive);
      var k := Find(s, from).value;
      ChangeIsOther(s, change, k);
      RemainingWithin(s.addresses[k].recoverable, outpoints);
      CommitStep(s, k, RecoveryWrites(s.addresses[k], txid, outpoints), change, txid, "recovery", pending, derive);
    } else {
      Unchanged(s);
    }
  }

  lemma Unchanged(s: Store)
    ensures StoreForward(s, s)
  {
  }

  /** The record after one of the four calls that only replace it. */
  function Replaced(r: Record, op: Op): Record
    requires op.FundOp? || op.ObserveOp? || op.SpentOp? || op.RetireOp?
  {
    match op
    case FundOp(_) => r.(state := Funded, reserved := false)
    case ObserveOp(_, current, mature) => Observed(r, current, mature)
    case SpentOp(_) => r.(state := Spent)
    case RetireOp(_) => r.(encSeed := [], state := Retired)
  }

  predicate Replaceable(r: Record, op: Op)
    requires op.FundOp? || op.ObserveOp? || op.SpentOp? || op.RetireOp?
  {
    match op
    case FundOp(_) => r.state == Fresh
    case ObserveOp(_, _, _) => r.state == Spent
    case SpentOp(_) => r.state == SpendPending
    case RetireOp(_) => r.state == Spent && !r.hasRecoverable && r.recoveryPending == []
  }

  lemma ReplacedGood(r: Record, k: nat, op: Op, derive: Deriver)
    requires op.FundOp? || op.ObserveOp? || op.SpentOp? || op.RetireOp?
    requires Good(r, k, derive) && Replaceable(r, op)
    ensures Good(Replaced(r, op), k, derive) && Forward(r, Replaced(r, op))
  {
  }

  lemma SimpleResult(s: Store, op: Op, derive: Deriver)
    requires op.FundOp? || op.ObserveOp? || op.SpentOp? || op.RetireOp?
    ensures var t := Apply(s, op, derive);
            if t.error.Some? then t.store == s
            else var k := Find(s, op.addr);
              k.Some? && Replaceable(s.addresses[k.value], op) && t.store == Put(s, k.value, Replaced(s.addresses[k.value], op))
  {
    hide FindFrom, Find, Observed;
  }

  lemma SimpleStep(s: Store, op: Op, derive: Deriver)
    requires Inv(s, derive) && (op.FundOp? || op.ObserveOp? || op.SpentOp? || op.RetireOp?)
    ensures var t := Apply(s, op, derive).store; Inv(t, derive) && StoreForward(s, t) && t.pending == s.pending && t.history == s.history
  {
    hide FindFrom, Find, Apply, Inv, Good, Forward, Replaced, Replaceable, StoreForward;
    Unchanged(s);
    SimpleResult(s, op, derive);
    if Apply(s, op, derive).error.None? {
      var k := Find(s, op.addr).value;
      FindDerived(s, op.addr, derive);
      ReplacedGood(s.addresses[k], k, op, derive);
      PutStep(s, k, Replaced(s.addresses[k], op), derive);
    }
  }

  lemma SameAddresses(s: Store, t: Store, derive: Deriver)
    requires Inv(s, derive) && t.addresses == s.addresses && t.nextIndex == s.nextIndex
    requires forall id :: id in t.pending ==> id in s.pending && t.pending[id] == s.pending[id]
    ensures Inv(t, derive) && StoreForward(s, t)
  {
    hide Backed;
    Unchanged(s);
    forall id | id in t.pending ensures Backed(t, id, t.pending[id], derive) {
      BackedStays(s, t, id, derive);
    }
  }

  lemma {:induction false} IncomingKeeps(s: Store, addr: string, incoming: seq<Transfer>, total: int64)
    ensures var t := PutIncoming(s, addr, incoming, total).0.store;
            t.addresses == s.addresses && t.nextIndex == s.nextIndex && t.pending == s.pending && HistoryKept(s, t)
    decreases |incoming|
  {
    if incoming != [] && PutHistory(s, incoming[0]).error.None? {
      IncomingKeeps(PutHistory(s, incoming[0]).store, addr, incoming[1..], Wrap64(total + incoming[0].amount));
    }
  }

  lemma FundedGood(r: Record, k: nat, derive: Deriver)
    requires Good(r, k, derive) && r.state == Fresh
    ensures Good(FundedNow(r), k, derive) && Forward(r, FundedNow(r))
  {
  }

  function FundedNow(r: Record): Record { r.(state := Funded, reserved := false) }

  /** Funding with history touches one fresh record at most, and adds to the history. */
  lemma FundingResult(s: Store, addr: string, balance: int64, incoming: seq<Transfer>)
    ensures var t := FundAndRecord(s, addr, balance, incoming).outcome.store;
            && t.nextIndex == s.nextIndex && t.pending == s.pending && HistoryKept(s, t)
            && (t.addresses == s.addresses
                || var k := Find(s, addr);
                   && k.Some? && s.addresses[k.value].state == Fresh
                   && t.addresses == s.addresses[k.value := FundedNow(s.addresses[k.value])])
  {
    hide FindFrom, Find, PutIncoming;
    IncomingKeeps(s, addr, incoming, 0);
  }

  lemma FundHistoryStep(s: Store, addr: string, balance: int64, incoming: seq<Transfer>, derive: Deriver)
    requires Inv(s, derive)
    ensures var t := FundAndRecord(s, addr, balance, incoming).outcome.store;
            Inv(t, derive) && StoreForward(s, t) && t.pending == s.pending && HistoryKept(s, t)
  {
    hide FindFrom, Find, FundAndRecord, Inv, StoreForward, HistoryKept, FundedNow;
    FundingResult(s, addr, balance, incoming);
    var t := FundAndRecord(s, addr, balance, incoming).outcome.store;
    if t.addresses == s.addresses {
      SameAddresses(s, t, derive);
    } else {
      FindDerived(s, addr, derive);
      var k := Find(s, addr).value;
      FundedGood(s.addresses[k], k, derive);
      PutStep(s, k, FundedNow(s.addresses[k]), derive);
      SameAddresses(Put(s, k, FundedNow(s.addresses[k])), t, derive);
      ForwardTo(s, Put(s, k, FundedNow(s.addresses[k])), t);
    }
  }

  lemma ForwardTo(s: Store, mid: Store, t: Store)
    requires StoreForward(s, mid) && t.addresses == mid.addresses && t.nextIndex == mid.nextIndex
    ensures StoreForward(s, t)
  {
  }

  /** Every call keeps the invariant, moves each record at most one state forward, and
      never overwrites an address, a key, a spending id or a history entry, nor a blob
      before the key is retired. */
  lemma StepKeeps(s: Store, op: Op, derive: Deriver)
    requires Inv(s, derive) && RealBlob(op)
    ensures var t := Apply(s, op, derive).store; Inv(t, derive) && StoreForward(s, t) && HistoryKept(s, t)
  {
    hide Inv, StoreForward, FundAndRecord, CommitSpend, CommitRecovery, Observe, MarkFunded, MarkSpent, Retire;
    match op
    case GenerateOp(blob) => GenerateStep(s, derive, blob);
    case FundOp(_) => SimpleStep(s, op, derive);
    case FundHistoryOp(addr, balance, incoming) => FundHistoryStep(s, addr, balance, incoming, derive);
    case SpendOp(from, change, txid, pending) =>
      SpendStep(s, from, change, txid, pending, derive);
      CommitsKeepHistory(s, op, derive);
    case ObserveOp(_, _, _) => SimpleStep(s, op, derive);
    case RecoverOp(from, change, txid, outpoints, pending) =>
      RecoverStep(s, from, change, txid, outpoints, pending, derive);
      CommitsKeepHistory(s, op, derive);
    case SpentOp(_) => SimpleStep(s, op, derive);
    case RetireOp(_) => SimpleStep(s, op, derive);
    case DeleteOp(txid) => SameAddresses(s, Apply(s, op, derive).store, derive);
    case HistoryOp(transfer) => SameAddresses(s, Apply(s, op, derive).store, derive);
  }

  lemma CommitsKeepHistory(s: Store, op: Op, derive: Deriver)
    requires op.SpendOp? || op.RecoverOp?
    ensures Apply(s, op, derive).store.history == s.history
  {
    hide FindFrom, Find, AddBroadcast, ChangeError, CommitSpend, CommitRecovery, Reserve;
    match op
    case SpendOp(from, change, txid, pending) =>
      SpendResult(s, from, change, txid, pending);
      ReserveKeeps(s, change);
    case RecoverOp(from, change, txid, outpoints, pending) =>
      RecoverResult(s, from, change, txid, outpoints, pending);
      ReserveKeeps(s, change);
  }

  lemma ReserveKeeps(s: Store, change: string)
    ensures ChangeError(s, change).None? ==> Reserve(s, change) == s.(addresses := Reserve(s, change).addresses)
  {
    hide FindFrom, Find;
  }

  // ------------------------------------------------------------------- every run

  predicate RealBlobs(ops: seq<Op>) { forall i :: 0 <= i < |ops| ==> RealBlob(ops[i]) }

  /** Every reachable store satisfies the invariant. */
  lemma {:induction false} RunKeeps(s: Store, ops: seq<Op>, derive: Deriver)
    requires Inv(s, derive) && RealBlobs(ops)
    ensures Inv(Run(s, ops, derive), derive)
    decreases |ops|
  {
    hide Inv;
    if ops != [] {
      RunKeeps(s, ops[..|ops| - 1], derive);
      StepKeeps(Run(s, ops[..|ops| - 1], derive), ops[|ops| - 1], derive);
    }
  }

  lemma ReachableInv(ops: seq<Op>, derive: Deriver)
    requires RealBlobs(ops)
    ensures Inv(Run(EMPTY, ops, derive), derive)
  {
    RunKeeps(EMPTY, ops, derive);
  }

  /** What a whole run preserves of a record. */
  predicate Later(r: Record, t: Record) {
    && t.index == r.index && t.address == r.address && t.publicKey == r.publicKey
    && Rank(r.state) <= Rank(t.state)
    && (r.reserved ==> t.reserved || Rank(t.state) > 0)
    && (Rank(r.state) >= 2 ==> t.spendTxid == r.spendTxid)
    && (t.state != Retired ==> t.encSeed == r.encSeed)
  }

  /** Over any run no address leaves the index, no state goes back, and addresses,
      keys, spending ids, history entries and, until RETIRED, blobs stay what they were. */
  lemma {:induction false} RunForward(s: Store, ops: seq<Op>, derive: Deriver)
    requires Inv(s, derive) && RealBlobs(ops)
    ensures var t := Run(s, ops, derive);
            && s.nextIndex <= t.nextIndex && HistoryKept(s, t)
            && forall i :: i in s.addresses ==> i in t.addresses && Later(s.addresses[i], t.addresses[i])
    decreases |ops|
  {
    hide Inv;
    if ops != [] {
      var mid := Run(s, ops[..|ops| - 1], derive);
      RunForward(s, ops[..|ops| - 1], derive);
      RunKeeps(s, ops[..|ops| - 1], derive);
      StepKeeps(mid, ops[|ops| - 1], derive);
    }
  }

  /** Call `n` generated index `i` with this blob. */
  predicate GeneratedAt(ops: seq<Op>, n: nat, i: nat, blob: seq<byte>, derive: Deriver)
    requires n < |ops|
  {
    ops[n] == GenerateOp(Some(blob)) && Run(EMPTY, ops[..n], derive).nextIndex == i
  }

  /** In every reachable store a key that is not retired still has the blob that its
      generation handed over. */
  lemma {:induction false} BlobsKept(ops: seq<Op>, i: nat, derive: Deriver)
    requires RealBlobs(ops) && i in Run(EMPTY, ops, derive).addresses
    ensures exists n, blob: seq<byte> :: 0 <= n < |ops| && GeneratedAt(ops, n, i, blob, derive)
              && (Run(EMPTY, ops, derive).addresses[i].state != Retired ==> Run(EMPTY, ops, derive).addresses[i].encSeed == blob)
    decreases |ops|
  {
    hide Inv, Apply;
    var init, last := ops[..|ops| - 1], ops[|ops| - 1];
    var mid := Run(EMPTY, init, derive);
    ReachableInv(init, derive);
    StepKeeps(mid, last, derive);
    if i in mid.addresses {
      BlobsKept(init, i, derive);
      var n, blob: seq<byte> :| 0 <= n < |init| && GeneratedAt(init, n, i, blob, derive) && (mid.addresses[i].state != Retired ==> mid.addresses[i].encSeed == blob);
      assert init[..n] == ops[..n] && init[n] == ops[n];
      assert GeneratedAt(ops, n, i, blob, derive);
    } else {
      OnlyGenerationAdds(mid, last, i, derive);
      assert GeneratedAt(ops, |init|, i, last.blob.value, derive);
    }
  }

  lemma OnlyGenerationAdds(s: Store, op: Op, i: nat, derive: Deriver)
    requires Inv(s, derive) && i !in s.addresses && i in Apply(s, op, derive).store.addresses
    ensures op.GenerateOp? && op.blob.Some? && i == s.nextIndex
    ensures Apply(s, op, derive).store.addresses[i].encSeed == op.blob.value
  {
    hide Inv, FindFrom, Find, FundAndRecord, CommitSpend, CommitRecovery, Observe;
    match op
    case GenerateOp(_) =>
    case FundHistoryOp(addr, balance, incoming) => FundingResult(s, addr, balance, incoming);
    case SpendOp(from, change, txid, pending) => SpendResult(s, from, change, txid, pending);
    case RecoverOp(from, change, txid, outpoints, pending) => RecoverResult(s, from, change, txid, outpoints, pending);
    case ObserveOp(_, _, _) => SimpleResult(s, op, derive);
    case _ =>
  }

  /** Two stored normal spends never have the same source, and a stored broadcast's
      source is at or past the state that its kind implies. */
  lemma BroadcastSources(s: Store, derive: Deriver, a: string, b: string)
    requires Inv(s, derive) && Injective(derive)
    requires a in s.pending && b in s.pending && s.pending[a].kind == "spend" && s.pending[b].kind == "spend"
    requires s.pending[a].source == s.pending[b].source
    ensures a == b
  {
    assert Backed(s, a, s.pending[a], derive) && Backed(s, b, s.pending[b], derive);
  }
}
