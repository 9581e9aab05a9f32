/** The wallet database and its transitions, keystore/keystore.go, pending.go and
    history.go, as functions from one store to the next.  A transition that reports
    an error leaves the store as it was: bbolt's Update is all or nothing. */
module Keystore {
  import opened Common

  datatype State = Fresh | Funded | SpendPending | Spent | Retired

  datatype Outpoint = Outpoint(txid: string, vout: uint32, amount: int64)

  datatype Record = Record(
    index: nat,
    address: string,
    publicKey: seq<byte>,
    encSeed: seq<byte>,
    state: State,
    hasRecoverable: bool,
    recoverable: seq<Outpoint>,
    recoveryPending: seq<Outpoint>,
    recoveryTxid: string,
    reserved: bool,
    spendTxid: string)

  /** A time is a number, zero being Go's zero time. */
  type Time = nat

  datatype Broadcast = Broadcast(
    txid: string, rawHex: string, kind: string, source: string, destination: string,
    destinationType: string, amount: int64, fee: int64, signedAt: Time)

  datatype Transfer = Transfer(
    direction: string, txid: string, source: string, destination: string,
    destinationType: string, amount: int64, fee: int64, recordedAt: Time)

  /** The four buckets.  Address keys are big-endian, so scans go by index. */
  datatype Store = Store(
    addresses: map<nat, Record>,
    nextIndex: nat,
    pending: map<string, Broadcast>,
    history: map<string, Transfer>)

  const EMPTY: Store := Store(map[], 0, map[], map[])

  datatype StoreError =
    | DerivationFailed
    | NotFound
    | NotFresh
    | NotFunded
    | NotPending
    | NotSpent
    | RecoveryNotAvailable
    | RecoveryInProgress
    | IncompleteBroadcast
    | BroadcastConflict
    | BroadcastMismatch
    | IncompleteHistory
    | HistoryConflict
    | NotAnchored
    | InvalidIncoming
    | TotalMismatch

  /** The next store and what the call reports. */
  datatype Outcome = Outcome(store: Store, error: Option<StoreError>)

  function Fail(s: Store, e: StoreError): Outcome { Outcome(s, Some(e)) }
  function Done(s: Store): Outcome { Outcome(s, None) }

  // --------------------------------------------------------------------- records

  /** findRecord: the first match in index order. */
  function FindFrom(s: Store, addr: string, i: nat): (r: Option<nat>)
    ensures r.Some? ==> i <= r.value < s.nextIndex && r.value in s.addresses && s.addresses[r.value].address == addr
    ensures forall k :: i <= k < (if r.Some? then r.value else s.nextIndex) && k in s.addresses ==> s.addresses[k].address != addr
    decreases s.nextIndex - i
  {
    if i >= s.nextIndex then None
    else if i in s.addresses && s.addresses[i].address == addr then Some(i)
    else FindFrom(s, addr, i + 1)
  }

  function Find(s: Store, addr: string): (r: Option<nat>)
    ensures r.Some? ==> r.value < s.nextIndex && r.value in s.addresses && s.addresses[r.value].address == addr
    ensures forall k :: 0 <= k < (if r.Some? then r.value else s.nextIndex) && k in s.addresses ==> s.addresses[k].address != addr
  {
    FindFrom(s, addr, 0)
  }

  /** GetRecord. */
  function Lookup(s: Store, addr: string): Option<Record> {
    var k := Find(s, addr);
    if k.None? then None else Some(s.addresses[k.value])
  }

  function Put(s: Store, k: nat, r: Record): Store { s.(addresses := s.addresses[k := r]) }

  // ------------------------------------------------------------------ generation

  datatype Derived = Derived(publicKey: seq<byte>, address: string)

  /** Public key and address at an index; the encrypted blob differs from call to call. */
  type Deriver = nat -> Derived

  function Generate(s: Store, derive: Deriver, blob: Option<seq<byte>>): Outcome {
    if blob.None? then Fail(s, DerivationFailed)
    else
      var d := derive(s.nextIndex);
      var r := Record(s.nextIndex, d.address, d.publicKey, blob.value, Fresh, false, [], [], "", false, "");
      Done(Put(s, s.nextIndex, r).(nextIndex := s.nextIndex + 1))
  }

  // ------------------------------------------------------------------- lifecycle

  function MarkFunded(s: Store, addr: string): Outcome {
    var k := Find(s, addr);
    if k.None? then Fail(s, NotFound)
    else
      var r := s.addresses[k.value];
      if r.state != Fresh then Fail(s, NotFresh)
      else Done(Put(s, k.value, r.(state := Funded, reserved := false)))
  }

  /** The checks that MarkSpendPending... and MarkRecoveryPending... make on change. */
  function ChangeError(s: Store, change: string): Option<StoreError> {
    if change == "" then None
    else
      var k := Find(s, change);
      if k.None? then Some(NotFound)
      else if s.addresses[k.value].state != Fresh || s.addresses[k.value].reserved then Some(NotFresh)
      else None
  }

  function Reserve(s: Store, change: string): Store
    requires ChangeError(s, change).None?
  {
    if change == "" then s
    else
      var k := Find(s, change).value;
      Put(s, k, s.addresses[k].(reserved := true))
  }

  function CommitSpend(s: Store, from: string, change: string, txid: string, pending: seq<Broadcast>): Outcome {
    var k := Find(s, from);
    if k.None? then Fail(s, NotFound)
    else
      var r := s.addresses[k.value];
      if r.state != Funded then Fail(s, NotFunded)
      else if ChangeError(s, change).Some? then Fail(s, ChangeError(s, change).value)
      else
        var p := AddBroadcast(s, txid, from, "spend", pending);
        if p.error.Some? then Fail(s, p.error.value)
        else Done(Put(Reserve(s, change), k.value, r.(state := SpendPending, spendTxid := txid)).(pending := p.store.pending))
  }

  function MarkSpent(s: Store, addr: string): Outcome {
    var k := Find(s, addr);
    if k.None? then Fail(s, NotFound)
    else
      var r := s.addresses[k.value];
      if r.state != SpendPending then Fail(s, NotPending)
      else Done(Put(s, k.value, r.(state := Spent)))
  }

  function Retire(s: Store, addr: string): Outcome {
    var k := Find(s, addr);
    if k.None? then Fail(s, NotFound)
    else
      var r := s.addresses[k.value];
      if r.state != Spent then Fail(s, NotSpent)
      else if r.hasRecoverable || r.recoveryPending != [] then Fail(s, RecoveryInProgress)
      else Done(Put(s, k.value, r.(encSeed := [], state := Retired)))
  }

  // -------------------------------------------------------------------- recovery

  predicate NoRepeats(os: seq<Outpoint>) { forall i, j :: 0 <= i < j < |os| ==> os[i] != os[j] }

  predicate Meet(xs: seq<Outpoint>, ys: seq<Outpoint>) { exists i :: 0 <= i < |xs| && xs[i] in ys }

  /** recoveryOutpointSubset. */
  predicate Authorizes(authorized: seq<Outpoint>, submitted: seq<Outpoint>) {
    && submitted != []
    && NoRepeats(authorized) && NoRepeats(submitted)
    && forall i :: 0 <= i < |submitted| ==> submitted[i] in authorized
  }

  function Remaining(authorized: seq<Outpoint>, selected: seq<Outpoint>): seq<Outpoint> {
    if authorized == [] then []
    else
      var rest := Remaining(authorized[..|authorized| - 1], selected);
      var last := authorized[|authorized| - 1];
      if last in selected then rest else rest + [last]
  }

  /** The record after an observation of `current`, the address's unspent outputs. */
  function Observed(r: Record, current: seq<Outpoint>, mature: bool): Record {
    if Meet(r.recoveryPending, current) then r.(hasRecoverable := false, recoverable := [])
    else
      var available := mature && current != [];
      r.(recoveryPending := [],
         recoveryTxid := if r.recoveryPending != [] then "" else r.recoveryTxid,
         hasRecoverable := available,
         recoverable := if available then current else [])
  }

  /** Whether recovery became available, beside the outcome. */
  datatype Observation = Observation(outcome: Outcome, became: bool)

  function Observe(s: Store, addr: string, current: seq<Outpoint>, mature: bool): Observation {
    var k := Find(s, addr);
    if k.None? then Observation(Fail(s, NotFound), false)
    else
      var r := s.addresses[k.value];
      if r.state != Spent then Observation(Fail(s, NotSpent), false)
      else
        var after := Observed(r, current, mature);
        Observation(Done(Put(s, k.value, after)), !r.hasRecoverable && after.hasRecoverable)
  }

  function CommitRecovery(s: Store, from: string, change: string, txid: string, outpoints: seq<Outpoint>,
                          pending: seq<Broadcast>): Outcome
  {
    var k := Find(s, from);
    if k.None? then Fail(s, NotFound)
    else
      var r := s.addresses[k.value];
      if r.state != Spent then Fail(s, NotSpent)
      else if r.recoveryPending != [] then Fail(s, RecoveryInProgress)
      else if !r.hasRecoverable || !Authorizes(r.recoverable, outpoints) then Fail(s, RecoveryNotAvailable)
      else if ChangeError(s, change).Some? then Fail(s, ChangeError(s, change).value)
      else
        var p := AddBroadcast(s, txid, from, "recovery", pending);
        if p.error.Some? then Fail(s, p.error.value)
        else
          var rest := Remaining(r.recoverable, outpoints);
          var after := r.(recoverable := rest, hasRecoverable := rest != [], recoveryPending := outpoints, recoveryTxid := txid);
          Done(Put(Reserve(s, change), k.value, after).(pending := p.store.pending))
  }

  // ---------------------------------------------------------- pending broadcasts

  /** putPendingForTransition and putPendingBroadcast. */
  function AddBroadcast(s: Store, txid: string, source: string, kind: string, pending: seq<Broadcast>): Outcome {
    if pending == [] then Done(s)
    else if |pending| != 1 || pending[0].txid != txid || pending[0].source != source || pending[0].kind != kind
    then Fail(s, BroadcastMismatch)
    else PutBroadcast(s, pending[0])
  }

  function PutBroadcast(s: Store, b: Broadcast): Outcome {
    if |b.txid| != 64 || b.rawHex == "" || b.source == "" || b.amount <= 0 || b.fee < 0 || b.signedAt == 0
       || (b.kind != "spend" && b.kind != "recovery")
    then Fail(s, IncompleteBroadcast)
    else if b.txid in s.pending then Fail(s, BroadcastConflict)
    else Done(s.(pending := s.pending[b.txid := b]))
  }

  function DeleteBroadcast(s: Store, txid: string): Outcome { Done(s.(pending := s.pending - {txid})) }

  // --------------------------------------------------------------------- history

  function HistoryKey(t: Transfer): Option<string> {
    if t.txid == "" || t.destination == "" || t.amount <= 0 || t.recordedAt == 0 then None
    else if t.direction == "incoming" then Some("in:" + t.txid + ":" + t.destination)
    else if t.direction == "outgoing" then
      if t.source == "" || t.destinationType == "" || t.fee < 0 then None else Some("out:" + t.txid)
    else None
  }

  /** putHistoryRecord: written once, and again only with the same contents. */
  function PutHistory(s: Store, t: Transfer): Outcome {
    var key := HistoryKey(t);
    if key.None? then Fail(s, IncompleteHistory)
    else if key.value in s.history then
      if s.history[key.value] == t then Done(s) else Fail(s, HistoryConflict)
    else Done(s.(history := s.history[key.value := t]))
  }

  /** The loop of MarkFundedAndRecordIncoming; `total` is its running sum. */
  function PutIncoming(s: Store, addr: string, incoming: seq<Transfer>, total: int64): (r: (Outcome, int64))
    decreases |incoming|
  {
    if incoming == [] then (Done(s), total)
    else
      var t := incoming[0];
      var sum := Wrap64(total + t.amount);
      if t.direction != "incoming" || t.destination != addr then (Fail(s, InvalidIncoming), sum)
      else
        var p := PutHistory(s, t);
        if p.error.Some? then (p, sum) else PutIncoming(p.store, addr, incoming[1..], sum)
  }

  /** Whether the address was reserved, beside the outcome. */
  datatype Funding = Funding(outcome: Outcome, wasReserved: bool)

  function FundAndRecord(s: Store, addr: string, balance: int64, incoming: seq<Transfer>): Funding {
    var k := Find(s, addr);
    if k.None? then Funding(Fail(s, NotFound), false)
    else
      var r := s.addresses[k.value];
      if r.state != Fresh then Funding(Fail(s, NotFresh), false)
      else
        var funded := r.(state := Funded, reserved := false);
        if r.reserved then Funding(Done(Put(s, k.value, funded)), true)
        else if incoming == [] then Funding(Fail(s, NotAnchored), false)
        else
          var (p, total) := PutIncoming(s, addr, incoming, 0);
          if p.error.Some? then Funding(Fail(s, p.error.value), false)
          else if total != balance then Funding(Fail(s, TotalMismatch), false)
          else Funding(Done(Put(p.store, k.value, funded)), false)
  }

  // ------------------------------------------------------------------ any one step

  datatype Op =
    | GenerateOp(blob: Option<seq<byte>>)
    | FundOp(addr: string)
    | FundHistoryOp(addr: string, balance: int64, incoming: seq<Transfer>)
    | SpendOp(from: string, change: string, txid: string, pending: seq<Broadcast>)
    | ObserveOp(addr: string, current: seq<Outpoint>, mature: bool)
    | RecoverOp(from: string, change: string, txid: string, outpoints: seq<Outpoint>, pending: seq<Broadcast>)
    | SpentOp(addr: string)
    | RetireOp(addr: string)
    | DeleteOp(txid: string)
    | HistoryOp(transfer: Transfer)

  function Apply(s: Store, op: Op, derive: Deriver): Outcome {
    match op
    case GenerateOp(blob) => Generate(s, derive, blob)
    case FundOp(addr) => MarkFunded(s, addr)
    case FundHistoryOp(addr, balance, incoming) => FundAndRecord(s, addr, balance, incoming).outcome
    case SpendOp(from, change, txid, pending) => CommitSpend(s, from, change, txid, pending)
    case ObserveOp(addr, current, mature) => Observe(s, addr, current, mature).outcome
    case RecoverOp(from, change, txid, outpoints, pending) => CommitRecovery(s, from, change, txid, outpoints, pending)
    case SpentOp(addr) => MarkSpent(s, addr)
    case RetireOp(addr) => Retire(s, addr)
    case DeleteOp(txid) => DeleteBroadcast(s, txid)
    case HistoryOp(transfer) => PutHistory(s, transfer)
  }

  /** The store after a run of calls, whatever each of them reports. */
  function Run(s: Store, ops: seq<Op>, derive: Deriver): Store
    decreases |ops|
  {
    if ops == [] then s
    else Apply(Run(s, ops[..|ops| - 1], derive), ops[|ops| - 1], derive).store
  }

  /** No failing call changes anything. */
  lemma FailureChangesNothing(s: Store, op: Op, derive: Deriver)
    ensures Apply(s, op, derive).error.Some? ==> Apply(s, op, derive).store == s
  {
  }
}
