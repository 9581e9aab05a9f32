/** Any number of callers of the signer, one at a time under signMu, while every other
    call of the wallet goes on changing the database between a signer's checks and its
    commit. */
module Interleaving {
  import opened Common
  import opened Bytes
  import opened Transaction
  import opened Keystore
  import opened Lifecycle
  import opened Signing
  import Parser
  import Recovery

  /** The call that holds signMu: it has read the source record, and then perhaps the
      change record too. */
  datatype Job =
    | SourceRead(q: Request, source: Option<Record>)
    | ChangeRead(q: Request, source: Option<Record>, other: Option<Record>)

  /** A call that succeeded and handed out its signatures and bytes. */
  datatype Release = Release(q: Request, prepared: Prepared)

  datatype System = System(store: Store, job: Option<Job>, released: seq<Release>)

  const START: System := System(EMPTY, None, [])

  /** Either commit is made by the signer alone. */
  datatype Event =
    | Begin(q: Request)
    | ReadChange
    | Commit
    | Other(op: Op)

  predicate Enabled(y: System, e: Event) {
    match e
    case Begin(_) => y.job.None?
    case ReadChange => y.job.Some? && y.job.value.SourceRead?
    case Commit => y.job.Some? && y.job.value.ChangeRead?
    case Other(op) => !op.SpendOp? && !op.RecoverOp? && RealBlob(op)
  }

  /** The last stretch of a call: everything computed from what it has read, then the
      commit against the store as it is now. */
  function Conclude(c: Context, y: System, j: Job): (System, Result<Prepared, SignError>)
    requires j.ChangeRead?
  {
    match Prepare(c, j.q, j.source, j.other)
    case Err(e) => (y.(job := None), Err(e))
    case Ok(p) =>
      var (store, r) := Settle(y.store, c, p);
      (System(store, None, if r.Ok? then y.released + [Release(j.q, p)] else y.released), r)
  }

  function Step(c: Context, y: System, e: Event): System
    requires Enabled(y, e)
  {
    match e
    case Begin(q) => y.(job := Some(SourceRead(q, Lookup(y.store, q.from))))
    case ReadChange => y.(job := Some(ChangeRead(y.job.value.q, y.job.value.source, Lookup(y.store, y.job.value.q.change))))
    case Commit => Conclude(c, y, y.job.value).0
    case Other(op) => y.(store := Apply(y.store, op, c.derive).store)
  }

  /** Events that are not enabled do not happen. */
  function Exec(c: Context, events: seq<Event>): System
    decreases |events|
  {
    if events == [] then START
    else
      var y := Exec(c, events[..|events| - 1]);
      if Enabled(y, events[|events| - 1]) then Step(c, y, events[|events| - 1]) else y
  }

  // -------------------------------------------------------------------- invariants

  /** The bytes of a stored broadcast are a transaction whose id is its key. */
  predicate Genuine(sha: Hash, txid: string, b: Broadcast) {
    && Unhex(b.rawHex).Some? && Parser.Strip(Unhex(b.rawHex).value).Some?
    && WireOrder(txid) == Some(sha(sha(Parser.Strip(Unhex(b.rawHex).value).value)))
  }

  /** A released normal spend is the one its source records. */
  predicate Recorded(s: Store, r: Release) {
    !r.q.recovery ==>
      var rec := Lookup(s, r.q.from);
      rec.Some? && Rank(rec.value.state) >= 2 && rec.value.spendTxid == r.prepared.txid
  }

  /** The change address of a released transaction is taken. */
  predicate ChangeTaken(s: Store, r: Release) {
    r.q.change != "" ==>
      var rec := Lookup(s, r.q.change);
      rec.Some? && (rec.value.reserved || Rank(rec.value.state) >= 1)
  }

  predicate Apart(a: Release, b: Release) {
    && (!a.q.recovery && !b.q.recovery ==> a.q.from != b.q.from)
    && (a.q.change != "" && b.q.change != "" ==> a.q.change != b.q.change)
  }

  /** Every address past FUNDED got there by one released spend. */
  predicate Accounted(y: System, addr: string) {
    var rec := Lookup(y.store, addr);
    rec.Some? && Rank(rec.value.state) >= 2 ==>
      exists i :: 0 <= i < |y.released| && !y.released[i].q.recovery && y.released[i].q.from == addr
                  && y.released[i].prepared.txid == rec.value.spendTxid
  }

  ghost predicate Safe(c: Context, y: System) {
    && Inv(y.store, c.derive)
    && (forall t :: t in y.store.pending ==> Genuine(c.sha, t, y.store.pending[t]))
    && (forall i :: 0 <= i < |y.released| ==> Recorded(y.store, y.released[i]) && ChangeTaken(y.store, y.released[i]))
    && (forall i, j :: 0 <= i < j < |y.released| ==> Apart(y.released[i], y.released[j]))
    && (forall addr: string :: Accounted(y, addr))
  }

  // ------------------------------------------------------------------ lookups stay

  lemma ReleasesStay(s: Store, t: Store, r: Release, derive: Deriver)
    requires Inv(s, derive) && Inv(t, derive) && StoreForward(s, t)
    ensures Recorded(s, r) ==> Recorded(t, r)
    ensures ChangeTaken(s, r) ==> ChangeTaken(t, r)
  {
    hide FindFrom, Find, Inv, StoreForward;
    if Find(s, r.q.from).Some? { FindStays(s, t, r.q.from, derive); }
    if Find(s, r.q.change).Some? { FindStays(s, t, r.q.change, derive); }
  }

  /** How the calls outside the signer leave a record: they spend nothing, reserve
      nothing and lock nothing. */
  predicate Calm(r: Record, t: Record) {
    && (r.state == Funded ==> t.state == Funded)
    && (Rank(r.state) < 2 ==> Rank(t.state) < 2)
    && (t.reserved ==> r.reserved)
    && (r.recoveryPending == [] ==> t.recoveryPending == [])
  }

  predicate Quiet(s: Store, t: Store) {
    && (forall i :: i in t.addresses ==>
          if i in s.addresses then Calm(s.addresses[i], t.addresses[i]) else t.addresses[i].state == Fresh)
    && forall id :: id in t.pending ==> id in s.pending && t.pending[id] == s.pending[id]
  }

  lemma ReplacedCalm(r: Record, op: Op)
    requires op.FundOp? || op.ObserveOp? || op.SpentOp? || op.RetireOp?
    requires Replaceable(r, op)
    ensures Calm(r, Replaced(r, op))
  {
  }

  lemma PutQuiet(s: Store, k: nat, r: Record)
    requires k in s.addresses && Calm(s.addresses[k], r)
    ensures Quiet(s, Put(s, k, r))
  {
  }

  lemma FundingQuiet(s: Store, addr: string, balance: int64, incoming: seq<Transfer>, derive: Deriver)
    ensures Quiet(s, FundAndRecord(s, addr, balance, incoming).outcome.store)
  {
    hide FindFrom, Find, FundAndRecord;
    FundingResult(s, addr, balance, incoming);
  }

  lemma QuietSame(s: Store, t: Store)
    requires t.addresses == s.addresses && forall id :: id in t.pending ==> id in s.pending && t.pending[id] == s.pending[id]
    ensures Quiet(s, t)
  {
  }

  lemma GenerateQuiet(s: Store, blob: Option<seq<byte>>, derive: Deriver)
    requires Inv(s, derive)
    ensures Quiet(s, Generate(s, derive, blob).store)
  {
    hide Good, Backed;
    assert s.nextIndex !in s.addresses;
  }

  lemma OthersQuiet(s: Store, op: Op, derive: Deriver)
    requires Inv(s, derive) && !op.SpendOp? && !op.RecoverOp?
    ensures Quiet(s, Apply(s, op, derive).store)
  {
    hide FindFrom, Find, Inv, Replaced, Replaceable, FundAndRecord, Observe, Generate, Quiet;
    match op
    case GenerateOp(blob) => GenerateQuiet(s, blob, derive);
    case FundHistoryOp(addr, balance, incoming) => FundingQuiet(s, addr, balance, incoming, derive);
    case DeleteOp(_) => QuietSame(s, Apply(s, op, derive).store);
    case HistoryOp(_) => QuietSame(s, Apply(s, op, derive).store);
    case _ => ReplacingQuiet(s, op, derive);
  }

  lemma ReplacingQuiet(s: Store, op: Op, derive: Deriver)
    requires Inv(s, derive) && (op.FundOp? || op.ObserveOp? || op.SpentOp? || op.RetireOp?)
    ensures Quiet(s, Apply(s, op, derive).store)
  {
    hide FindFrom, Find, Inv, Replaced, Replaceable, Apply, Quiet;
    SimpleResult(s, op, derive);
    if Apply(s, op, derive).error.None? {
      var k := Find(s, op.addr).value;
      ReplacedCalm(s.addresses[k], op);
      PutQuiet(s, k, Replaced(s.addresses[k], op));
    } else {
      QuietSame(s, s);
    }
  }

  /** What an address is now comes from what it was, unless it is new. */
  lemma FindBack(s: Store, t: Store, addr: string, derive: Deriver)
    requires Inv(s, derive) && Inv(t, derive) && StoreForward(s, t)
    requires Find(t, addr).Some? && Find(t, addr).value in s.addresses
    ensures Find(s, addr) == Find(t, addr)
  {
    hide FindFrom, Find, Good, Backed;
    var k := Find(t, addr).value;
    assert s.addresses[k].address == addr;
    assert Find(s, addr).Some?;
    FindStays(s, t, addr, derive);
  }

  lemma AccountedStays(y: System, t: Store, addr: string, derive: Deriver)
    requires Inv(y.store, derive) && Inv(t, derive) && StoreForward(y.store, t) && Quiet(y.store, t)
    requires Accounted(y, addr)
    ensures Accounted(y.(store := t), addr)
  {
    hide FindFrom, Find, Inv;
    var k := Find(t, addr);
    if k.Some? && Rank(t.addresses[k.value].state) >= 2 {
      assert k.value in y.store.addresses;
      FindBack(y.store, t, addr, derive);
      var rec := Lookup(y.store, addr);
      assert Calm(rec.value, t.addresses[k.value]);
      assert Forward(rec.value, t.addresses[k.value]);
      var i :| 0 <= i < |y.released| && !y.released[i].q.recovery && y.released[i].q.from == addr
                  && y.released[i].prepared.txid == rec.value.spendTxid;
    }
  }

  lemma OtherSafe(c: Context, y: System, op: Op)
    requires Safe(c, y) && Enabled(y, Other(op))
    ensures Safe(c, Step(c, y, Other(op)))
  {
    hide Inv, StoreForward, Quiet, Apply, Recorded, ChangeTaken, Accounted, Genuine, RealBlob;
    var z := Step(c, y, Other(op));
    assert RealBlob(op) && !op.SpendOp? && !op.RecoverOp?;
    StepKeeps(y.store, op, c.derive);
    OthersQuiet(y.store, op, c.derive);
    QuietPending(c, y.store, z.store);
    forall i | 0 <= i < |z.released| ensures Recorded(z.store, z.released[i]) && ChangeTaken(z.store, z.released[i]) {
      ReleasesStay(y.store, z.store, z.released[i], c.derive);
    }
    forall addr: string ensures Accounted(z, addr) {
      AccountedStays(y, z.store, addr, c.derive);
      assert Accounted(y.(store := z.store), addr);
      assert z == y.(store := z.store);
    }
  }

  lemma QuietPending(c: Context, s: Store, t: Store)
    requires Quiet(s, t) && forall id :: id in s.pending ==> Genuine(c.sha, id, s.pending[id])
    ensures forall id :: id in t.pending ==> Genuine(c.sha, id, t.pending[id])
  {
    hide Genuine;
  }

  // -------------------------------------------------------------------- the commit

  /** A committed call, in the terms of its request. */
  ghost predicate Committed(s: Store, t: Store, q: Request, p: Prepared) {
    && Find(s, q.from).Some? && ChangeError(s, q.change).None?
    && (var k := Find(s, q.from).value;
        && s.addresses[k].state == (if q.recovery then Spent else Funded)
        && k in t.addresses && t.addresses == Reserve(s, q.change).addresses[k := t.addresses[k]]
        && (if q.recovery then t.addresses[k].state == Spent && t.addresses[k].spendTxid == s.addresses[k].spendTxid
            else t.addresses[k].state == SpendPending && t.addresses[k].spendTxid == p.txid))
    && p.txid in t.pending && t.pending[p.txid].rawHex == Hex(p.raw)
    && t.pending == s.pending[p.txid := t.pending[p.txid]]
  }

  lemma CommitMade(c: Context, s: Store, q: Request, p: Prepared)
    requires Settled(q.tx) && ToMetadata(q).Ok? && p.op == Signing.Commit(q, p.txid, p.raw, ToMetadata(q).value)
    ensures var o := Apply(s, p.op, c.derive);
            if o.error.Some? then o.store == s else Committed(s, o.store, q, p)
  {
    hide FindFrom, Find, ChangeError, Reserve, AddBroadcast, CommitSpend, CommitRecovery, ToMetadata, Remaining, Authorizes, Hex;
    match p.op
    case SpendOp(from, change, txid, pending) =>
      SpendResult(s, from, change, txid, pending);
      if Apply(s, p.op, c.derive).error.None? { AddedOne(s, txid, from, "spend", pending); }
    case RecoverOp(from, change, txid, outpoints, pending) =>
      RecoverResult(s, from, change, txid, outpoints, pending);
      if Apply(s, p.op, c.derive).error.None? { AddedOne(s, txid, from, "recovery", pending); }
  }

  /** Reserving an address changes its mark alone. */
  lemma ReserveMarks(s: Store, change: string)
    requires ChangeError(s, change).None?
    ensures Reserve(s, change).addresses.Keys == s.addresses.Keys
    ensures forall i :: i in s.addresses ==>
              Reserve(s, change).addresses[i] ==
              if change != "" && Find(s, change) == Some(i) then s.addresses[i].(reserved := true) else s.addresses[i]
    ensures change != "" ==> Lookup(s, change).Some? && Lookup(s, change).value.state == Fresh && !Lookup(s, change).value.reserved
  {
    hide FindFrom, Find;
  }

  lemma NewRelease(s: Store, t: Store, q: Request, p: Prepared, derive: Deriver)
    requires Inv(s, derive) && Inv(t, derive) && StoreForward(s, t) && Committed(s, t, q, p)
    ensures Recorded(t, Release(q, p)) && ChangeTaken(t, Release(q, p))
  {
    hide FindFrom, Find, Inv, StoreForward, ChangeError, Reserve;
    ReserveMarks(s, q.change);
    FindStays(s, t, q.from, derive);
    if q.change != "" { FindStays(s, t, q.change, derive); }
  }

  lemma NewApart(s: Store, t: Store, q: Request, p: Prepared, earlier: Release)
    requires Committed(s, t, q, p) && Recorded(s, earlier) && ChangeTaken(s, earlier)
    ensures Apart(earlier, Release(q, p))
  {
    hide FindFrom, Find, ChangeError, Reserve;
    ReserveMarks(s, q.change);
  }

  lemma NewAccounted(y: System, t: Store, q: Request, p: Prepared, addr: string, derive: Deriver)
    requires Inv(y.store, derive) && Inv(t, derive) && StoreForward(y.store, t) && Committed(y.store, t, q, p)
    requires Accounted(y, addr)
    ensures Accounted(System(t, None, y.released + [Release(q, p)]), addr)
  {
    hide FindFrom, Find, Inv, StoreForward, ChangeError, Reserve;
    var all := y.released + [Release(q, p)];
    ReserveMarks(y.store, q.change);
    var m := Find(t, addr);
    if m.Some? && Rank(t.addresses[m.value].state) >= 2 {
      assert m.value in y.store.addresses;
      FindBack(y.store, t, addr, derive);
      var r := y.store.addresses[m.value];
      if m == Find(y.store, q.from) && !q.recovery {
        assert !all[|y.released|].q.recovery && all[|y.released|].q.from == addr;
      } else {
        assert Rank(r.state) >= 2 && r.spendTxid == t.addresses[m.value].spendTxid;
        var i :| 0 <= i < |y.released| && !y.released[i].q.recovery && y.released[i].q.from == addr
                 && y.released[i].prepared.txid == r.spendTxid;
        assert all[i] == y.released[i];
      }
    }
  }

  lemma GenuineBytes(c: Context, q: Request, pubKey: seq<byte>, p: Prepared, b: Broadcast)
    requires Stands(c, q, pubKey, p) && b.rawHex == Hex(p.raw)
    ensures Genuine(c.sha, p.txid, b)
  {
    hide Parser.Strip, TxID, WireOrder, Serialize, ToMetadata, Hex, Unhex, Settled;
    UnhexOfHex(p.raw);
    TxIDIsDoubleHash(c.sha, Stripped(q.tx.core));
  }

  lemma CommittedSafe(c: Context, y: System, t: Store, q: Request, p: Prepared)
    requires Safe(c, y) && Inv(t, c.derive) && StoreForward(y.store, t) && Committed(y.store, t, q, p)
    requires Genuine(c.sha, p.txid, t.pending[p.txid])
    ensures Safe(c, System(t, None, y.released + [Release(q, p)]))
  {
    hide Inv, StoreForward, Recorded, ChangeTaken, Apart, Accounted, Genuine, ChangeError, Reserve;
    var z := System(t, None, y.released + [Release(q, p)]);
    forall i | 0 <= i < |z.released| ensures Recorded(t, z.released[i]) && ChangeTaken(t, z.released[i]) {
      if i < |y.released| {
        ReleasesStay(y.store, t, y.released[i], c.derive);
      } else {
        NewRelease(y.store, t, q, p, c.derive);
      }
    }
    forall i, j | 0 <= i < j < |z.released| ensures Apart(z.released[i], z.released[j]) {
      if j == |y.released| { NewApart(y.store, t, q, p, y.released[i]); }
    }
    forall addr: string ensures Accounted(z, addr) {
      NewAccounted(y, t, q, p, addr, c.derive);
    }
  }

  /** A call that ends in an error changes nothing and releases nothing. */
  lemma ErrorsReleaseNothing(c: Context, y: System, j: Job)
    requires j.ChangeRead? && Conclude(c, y, j).1.Err?
    ensures Conclude(c, y, j).0 == y.(job := None)
  {
    hide Prepare, Apply;
    var prepared := Prepare(c, j.q, j.source, j.other);
    if prepared.Ok? { FailureChangesNothing(y.store, prepared.value.op, c.derive); }
  }

  lemma ConcludeSafe(c: Context, y: System, j: Job)
    requires Safe(c, y) && j.ChangeRead?
    ensures Safe(c, Conclude(c, y, j).0)
  {
    hide Safe, Prepare, Apply, Inv, StoreForward, Committed, Stands, Settled, ToMetadata, Genuine;
    var z := Conclude(c, y, j);
    if z.1.Err? {
      ErrorsReleaseNothing(c, y, j);
      SafeWithout(c, y, None);
    } else {
      var p := z.1.value;
      PreparedStands(c, j.q, j.source, j.other);
      StandsParts(c, j.q, j.source.value.publicKey, p);
      CommitMade(c, y.store, j.q, p);
      SafeParts(c, y);
      StepKeeps(y.store, p.op, c.derive);
      var t := Apply(y.store, p.op, c.derive).store;
      CommittedParts(y.store, t, j.q, p);
      GenuineBytes(c, j.q, j.source.value.publicKey, p, t.pending[p.txid]);
      CommittedSafe(c, y, t, j.q, p);
    }
  }

  lemma SafeWithout(c: Context, y: System, job: Option<Job>)
    requires Safe(c, y)
    ensures Safe(c, y.(job := job))
  {
    hide Inv, Recorded, ChangeTaken, Apart, Genuine;
    forall addr: string ensures Accounted(y.(job := job), addr) {
      assert Accounted(y, addr);
    }
  }

  lemma SafeParts(c: Context, y: System)
    requires Safe(c, y)
    ensures Inv(y.store, c.derive)
  {
  }

  lemma CommittedParts(s: Store, t: Store, q: Request, p: Prepared)
    requires Committed(s, t, q, p)
    ensures p.txid in t.pending && t.pending[p.txid].rawHex == Hex(p.raw)
  {
    hide FindFrom, Find, ChangeError, Reserve, Hex;
  }

  lemma StandsParts(c: Context, q: Request, pubKey: seq<byte>, p: Prepared)
    requires Stands(c, q, pubKey, p)
    ensures Settled(q.tx) && ToMetadata(q).Ok? && p.op == Signing.Commit(q, p.txid, p.raw, ToMetadata(q).value)
    ensures !p.op.GenerateOp?
  {
    hide Parser.Strip, TxID, Serialize, ToMetadata, Hex, Settled;
  }

  /** In every run of callers and other calls: no two released spends have one source,
      no two released transactions have one change address, each source records the
      spend that was released for it and no other, every address past FUNDED has such
      a release, and every stored broadcast is a transaction with its own id. */
  lemma {:induction false} RunSafe(c: Context, events: seq<Event>)
    ensures Safe(c, Exec(c, events))
    decreases |events|
  {
    hide Safe, Conclude;
    if events == [] {
      StartSafe(c);
    } else {
      var y := Exec(c, events[..|events| - 1]);
      var e := events[|events| - 1];
      RunSafe(c, events[..|events| - 1]);
      if Enabled(y, e) {
        match e
        case Begin(q) => SafeWithout(c, y, Step(c, y, e).job);
        case ReadChange => SafeWithout(c, y, Step(c, y, e).job);
        case Commit => ConcludeSafe(c, y, y.job.value);
        case Other(op) => OtherSafe(c, y, op);
      }
    }
  }

  lemma StartSafe(c: Context)
    ensures Safe(c, START)
  {
  }

  // ------------------------------------------------------------- what signMu brings

  /** While a call holds signMu, a source it found FUNDED is still FUNDED, one without a
      recovery in flight still has none, and an unreserved change address is still
      unreserved. */
  predicate Held(y: System) {
    y.job.Some? ==>
      var j := y.job.value;
      && (j.source.Some? ==>
            && Lookup(y.store, j.q.from).Some?
            && (j.source.value.state == Funded ==> Lookup(y.store, j.q.from).value.state == Funded)
            && (j.source.value.recoveryPending == [] ==> Lookup(y.store, j.q.from).value.recoveryPending == []))
      && (j.ChangeRead? && j.other.Some? ==>
            && Lookup(y.store, j.q.change).Some?
            && (!j.other.value.reserved ==> !Lookup(y.store, j.q.change).value.reserved))
  }

  lemma CalmLookup(s: Store, t: Store, addr: string, derive: Deriver)
    requires Inv(s, derive) && Inv(t, derive) && StoreForward(s, t) && Quiet(s, t) && Lookup(s, addr).Some?
    ensures Lookup(t, addr).Some? && Calm(Lookup(s, addr).value, Lookup(t, addr).value)
  {
    hide FindFrom, Find, Inv, Calm;
    FindStays(s, t, addr, derive);
    assert Find(t, addr).value in t.addresses;
  }

  lemma OtherHeld(c: Context, y: System, op: Op)
    requires Safe(c, y) && Held(y) && Enabled(y, Other(op))
    ensures Held(Step(c, y, Other(op)))
  {
    hide Safe, Inv, StoreForward, Quiet, Apply, RealBlob, Lookup;
    var z := Step(c, y, Other(op));
    assert RealBlob(op) && !op.SpendOp? && !op.RecoverOp?;
    SafeParts(c, y);
    StepKeeps(y.store, op, c.derive);
    OthersQuiet(y.store, op, c.derive);
    if y.job.Some? {
      var q := y.job.value.q;
      if Lookup(y.store, q.from).Some? { CalmLookup(y.store, z.store, q.from, c.derive); }
      if Lookup(y.store, q.change).Some? { CalmLookup(y.store, z.store, q.change, c.derive); }
    }
  }

  lemma {:induction false} RunHeld(c: Context, events: seq<Event>)
    ensures Held(Exec(c, events))
    decreases |events|
  {
    hide Safe, Conclude, Lookup;
    if events != [] {
      var y := Exec(c, events[..|events| - 1]);
      var e := events[|events| - 1];
      RunHeld(c, events[..|events| - 1]);
      if Enabled(y, e) {
        match e
        case Begin(q) =>
        case ReadChange =>
        case Commit => ConcludeFrees(c, y, y.job.value);
        case Other(op) => RunSafe(c, events[..|events| - 1]); OtherHeld(c, y, op);
      }
    }
  }

  lemma ConcludeFrees(c: Context, y: System, j: Job)
    requires j.ChangeRead?
    ensures Conclude(c, y, j).0.job.None?
  {
    hide Prepare, Apply;
  }

  lemma BroadcastAcceptedIff(c: Context, s: Store, q: Request, pubKey: seq<byte>, p: Prepared)
    requires Stands(c, q, pubKey, p)
    ensures if q.recovery then p.op.RecoverOp? && p.op.outpoints == Outpoints(q.tx) else p.op.SpendOp?
    ensures p.op.from == q.from && p.op.change == q.change && p.op.txid == p.txid
    ensures AddBroadcast(s, p.txid, q.from, Kind(q), p.op.pending).error.None? <==>
              q.from != "" && q.tx.core.outputs[0].amount > 0 && q.now != 0 && p.txid !in s.pending
  {
    hide Parser.Strip, TxID, Serialize, SumSpent, SumOut, ToMetadata, Hex;
    DetailsAcceptedIff(q);
    assert |p.raw| > 0 && |p.txid| == 64 by { RawNotEmpty(c, q, pubKey, p); }
    assert |Hex(p.raw)| == 2 * |p.raw|;
    FeeNotNegative(q);
  }

  lemma RawNotEmpty(c: Context, q: Request, pubKey: seq<byte>, p: Prepared)
    requires Stands(c, q, pubKey, p)
    ensures p.raw != [] && |p.txid| == 64
  {
    hide Serialize, ToMetadata, Parser.SkipBody;
  }

  lemma FeeNotNegative(q: Request)
    requires Settled(q.tx) && ToMetadata(q).Ok?
    ensures ToMetadata(q).value.fee >= 0
  {
    hide SumSpent, SumOut;
  }

  lemma SettledIff(c: Context, s: Store, q: Request, pubKey: seq<byte>, p: Prepared)
    requires Inv(s, c.derive) && Stands(c, q, pubKey, p)
    requires Lookup(s, q.from).Some?
    requires if q.recovery then Lookup(s, q.from).value.recoveryPending == [] else Lookup(s, q.from).value.state == Funded
    requires q.change != "" ==> Lookup(s, q.change).Some? && !Lookup(s, q.change).value.reserved
    ensures Settle(s, c, p).1.Ok? <==>
              && (q.recovery ==> Authorizes(Lookup(s, q.from).value.recoverable, Outpoints(q.tx)))
              && (q.change != "" ==> Lookup(s, q.change).value.state == Fresh)
              && q.from != "" && q.tx.core.outputs[0].amount > 0 && q.now != 0 && p.txid !in s.pending
  {
    hide FindFrom, Find, Stands, AddBroadcast, Reserve, Outpoints, Remaining, NoRepeats, Backed;
    BroadcastAcceptedIff(c, s, q, pubKey, p);
    FindDerived(s, q.from, c.derive);
    if q.recovery && Authorizes(Lookup(s, q.from).value.recoverable, Outpoints(q.tx)) {
      Recovery.AnyAuthorized(Lookup(s, q.from).value.recoverable, Outpoints(q.tx));
    }
  }

  /** The mutex is what makes a call that passed its checks commit: it fails only when
      an outpoint it recovers is no longer authorized, its change address was funded
      meanwhile, its id is already waiting, or what it would store is incomplete. */
  lemma CommitSucceedsIff(c: Context, events: seq<Event>)
    requires var y := Exec(c, events);
             && y.job.Some? && y.job.value.ChangeRead?
             && Prepare(c, y.job.value.q, y.job.value.source, y.job.value.other).Ok?
    ensures var y := Exec(c, events);
            var q := y.job.value.q;
            var p := Prepare(c, q, y.job.value.source, y.job.value.other).value;
            && Lookup(y.store, q.from).Some? && (q.change != "" ==> Lookup(y.store, q.change).Some?)
            && (Conclude(c, y, y.job.value).1.Ok? <==>
                  && (q.recovery ==> Authorizes(Lookup(y.store, q.from).value.recoverable, Outpoints(q.tx)))
                  && (q.change != "" ==> Lookup(y.store, q.change).value.state == Fresh)
                  && q.from != "" && q.tx.core.outputs != [] && q.tx.core.outputs[0].amount > 0 && q.now != 0
                  && p.txid !in y.store.pending)
  {
    hide Prepare, Apply, Exec, Lookup, Stands, Settle, Inv, Authorizes, Outpoints;
    var y := Exec(c, events);
    var j := y.job.value;
    RunHeld(c, events);
    RunSafe(c, events);
    SafeParts(c, y);
    hide Safe;
    PreparedStands(c, j.q, j.source, j.other);
    var p := Prepare(c, j.q, j.source, j.other).value;
    StandsParts(c, j.q, j.source.value.publicKey, p);
    SettledIff(c, y.store, j.q, j.source.value.publicKey, p);
  }

  /** The broadcast that a released call leaves in the store. */
  predicate Describes(b: Broadcast, q: Request, p: Prepared)
    requires q.tx.core.outputs != []
  {
    var first := q.tx.core.outputs[0];
    && b.txid == p.txid && Unhex(b.rawHex) == Some(p.raw) && b.source == q.from && b.signedAt == q.now
    && b.kind == (if q.recovery then "recovery" else "spend") && b.amount == first.amount
    && (match q.details
        case Some(d) => b.destination == d.destination && b.destinationType == d.destinationType && b.fee == d.fee
        case None =>
          && b.destination == "script:" + Hex(first.script) && b.destinationType == "script"
          && b.fee == var left := SumSpent(q.tx.spent) - SumOut(q.tx.core.outputs); if left > 0 then left else 0)
  }

  /** A released call stores one new broadcast, under its id, with its bytes and what
      the caller or the outputs say of it. */
  lemma ReleaseStored(c: Context, y: System, j: Job)
    requires j.ChangeRead? && Conclude(c, y, j).1.Ok?
    ensures var (z, r) := Conclude(c, y, j);
            var id := r.value.txid;
            && j.q.tx.core.outputs != [] && id in z.store.pending && id !in y.store.pending
            && z.store.pending == y.store.pending[id := z.store.pending[id]]
            && Describes(z.store.pending[id], j.q, r.value)
  {
    hide Prepare, CommitSpend, CommitRecovery, Stands, ToMetadata, Hex, Unhex, AddBroadcast, SumSpent, SumOut;
    var p := Conclude(c, y, j).1.value;
    PreparedStands(c, j.q, j.source, j.other);
    StandsParts(c, j.q, j.source.value.publicKey, p);
    DetailsAcceptedIff(j.q);
    UnhexOfHex(p.raw);
    CommitPending(y.store, p.op, c.derive);
  }

  lemma CommitPending(s: Store, op: Op, derive: Deriver)
    requires (op.SpendOp? || op.RecoverOp?) && |op.pending| == 1 && Apply(s, op, derive).error.None?
    ensures op.txid !in s.pending && Apply(s, op, derive).store.pending == s.pending[op.txid := op.pending[0]]
  {
    hide FindFrom, Find, CommitSpend, CommitRecovery, AddBroadcast, ChangeError, Reserve, Authorizes, Remaining;
    if op.SpendOp? {
      SpendResult(s, op.from, op.change, op.txid, op.pending);
      AddedOne(s, op.txid, op.from, "spend", op.pending);
    } else {
      RecoverResult(s, op.from, op.change, op.txid, op.outpoints, op.pending);
      AddedOne(s, op.txid, op.from, "recovery", op.pending);
    }
  }

  // ------------------------------------------------------- confirming what was spent

  /** ObserveSpendConfirmation compares the id first and marks the address later.  In
      between, over any run, the address keeps that id, and the later call succeeds
      unless the address was confirmed meanwhile. */
  lemma {:induction false} ConfirmationStillMatches(s: Store, addr: string, ops: seq<Op>, derive: Deriver)
    requires Inv(s, derive) && RealBlobs(ops)
    requires Lookup(s, addr).Some? && Lookup(s, addr).value.state == SpendPending
    ensures var t := Run(s, ops, derive);
            && Lookup(t, addr).Some? && Lookup(t, addr).value.spendTxid == Lookup(s, addr).value.spendTxid
            && (MarkSpent(t, addr).error.Some? <==> Rank(Lookup(t, addr).value.state) >= 3)
    decreases |ops|
  {
    hide FindFrom, Find, Inv, Apply, StoreForward;
    if ops != [] {
      var init, last := ops[..|ops| - 1], ops[|ops| - 1];
      var mid := Run(s, init, derive);
      ConfirmationStillMatches(s, addr, init, derive);
      RunKeeps(s, init, derive);
      StepKeeps(mid, last, derive);
      FindStays(mid, Apply(mid, last, derive).store, addr, derive);
    }
  }
}
