/** The wallet object of wallet/wallet.go: its signer, step by step, and its gates on
    the lifecycle. */
module WalletObject {
  import opened Common
  import opened Bytes
  import opened Transaction
  import opened Sighash
  import opened Keystore
  import opened KeyIndexObject
  import opened Signing
  import opened Listing
  import opened Deposits
  import opened Funding
  import Parser
  import Fees

  // ----------------------------------------------------------- loops of the signer

  function PrevoutKey(i: TxInput): (Digest, uint32) { (i.txid, i.vout) }

  method CheckInputs(p: SpendParams, script: Script) returns (e: Option<SignError>)
    requires |p.core.inputs| == |p.spent|
    ensures e == InputError(p, script, |p.core.inputs|)
  {
    var seen: set<(Digest, uint32)> := {};
    for i := 0 to |p.spent|
      invariant InputError(p, script, i).None?
      invariant seen == set k | 0 <= k < i :: PrevoutKey(p.core.inputs[k])
    {
      var spent, outpoint := p.spent[i], PrevoutKey(p.core.inputs[i]);
      e := None;
      if outpoint in seen {
        var k :| 0 <= k < i && PrevoutKey(p.core.inputs[k]) == outpoint;
        e := Some(DuplicatePrevout);
      } else {
        assert forall k :: 0 <= k < i ==> PrevoutKey(p.core.inputs[k]) in seen;
        if spent.amount <= 0 {
          e := Some(NonPositiveSpent);
        } else if spent.script != script {
          e := Some(FromScriptMismatch);
        }
      }
      if e.Some? {
        FirstErrorStays(p, script, i + 1, |p.spent|);
        return;
      }
      seen := seen + {outpoint};
    }
    return None;
  }

  lemma {:induction false} FirstErrorStays(p: SpendParams, script: Script, i: nat, n: nat)
    requires i <= n <= |p.core.inputs| && |p.core.inputs| == |p.spent| && InputError(p, script, i).Some?
    ensures InputError(p, script, n) == InputError(p, script, i)
  {
    if i < n { FirstErrorStays(p, script, i, n - 1); }
  }

  method CountMatches(outputs: seq<TxOutput>, script: Script) returns (matches: nat)
    ensures matches == Paying(outputs, script)
  {
    matches := 0;
    for i := 0 to |outputs|
      invariant matches == Paying(outputs[..i], script)
    {
      if outputs[i].script == script {
        matches := matches + 1;
      }
      assert outputs[..i + 1][..i] == outputs[..i];
    }
    assert outputs[..|outputs|] == outputs;
  }

  /** Each addition is checked before it is made. */
  method TotalInput(spent: seq<SpentUtxo>) returns (total: Option<int64>)
    requires forall i :: 0 <= i < |spent| ==> spent[i].amount > 0
    ensures total.Some? <==> SumSpent(spent) <= MAX_INT64
    ensures total.Some? ==> total.value == SumSpent(spent)
  {
    var sum: int64 := 0;
    for i := 0 to |spent|
      invariant sum == SumSpent(spent[..i]) && sum >= 0
    {
      assert spent[..i + 1][..i] == spent[..i];
      SpentGrows(spent, i + 1);
      if sum > MAX_INT64 - spent[i].amount {
        return None;
      }
      sum := sum + spent[i].amount;
    }
    assert spent[..|spent|] == spent;
    return Some(sum);
  }

  method TotalOutput(outputs: seq<TxOutput>) returns (total: Option<int64>)
    requires NonNegative(outputs)
    ensures total.Some? <==> SumOut(outputs) <= MAX_INT64
    ensures total.Some? ==> total.value == SumOut(outputs)
  {
    var sum: int64 := 0;
    for i := 0 to |outputs|
      invariant sum == SumOut(outputs[..i]) && sum >= 0
    {
      assert outputs[..i + 1][..i] == outputs[..i];
      OutGrows(outputs, i + 1);
      if sum > MAX_INT64 - outputs[i].amount {
        return None;
      }
      sum := sum + outputs[i].amount;
    }
    assert outputs[..|outputs|] == outputs;
    return Some(sum);
  }

  lemma {:induction false} SpentGrows(spent: seq<SpentUtxo>, n: nat)
    requires n <= |spent| && forall i :: 0 <= i < |spent| ==> spent[i].amount > 0
    ensures SumSpent(spent[..n]) <= SumSpent(spent)
    decreases |spent|
  {
    if n < |spent| {
      SpentGrows(spent[..|spent| - 1], n);
      assert spent[..|spent| - 1][..n] == spent[..n];
    } else {
      assert spent[..n] == spent;
    }
  }

  lemma {:induction false} OutGrows(outputs: seq<TxOutput>, n: nat)
    requires n <= |outputs| && NonNegative(outputs)
    ensures SumOut(outputs[..n]) <= SumOut(outputs)
    decreases |outputs|
  {
    if n < |outputs| {
      OutGrows(outputs[..|outputs| - 1], n);
      assert outputs[..|outputs| - 1][..n] == outputs[..n];
    } else {
      assert outputs[..n] == outputs;
    }
  }

  method RecoveryOutpointsFromParams(p: SpendParams) returns (os: seq<Outpoint>)
    ensures os == Outpoints(p)
  {
    os := [];
    for i := 0 to |p.core.inputs|
      invariant os == Outpoints(p)[..i]
    {
      var wire := p.core.inputs[i].txid;
      var txid := new byte[32](k requires 0 <= k < 32 => wire[k]);
      assert txid[..] == wire;
      ReverseDigest(txid);
      var amount: int64 := if i < |p.spent| then p.spent[i].amount else 0;
      os := os + [Outpoint(Hex(txid[..]), p.core.inputs[i].vout, amount)];
    }
  }

  method ComputeDigests(sha: Hash, p: SpendParams) returns (r: Result<seq<Digest>, SighashError>)
    ensures r == Digests(sha, p, |p.core.inputs|)
  {
    hide SighashOf;
    var ds: seq<Digest> := [];
    for i := 0 to |p.core.inputs|
      invariant Digests(sha, p, i) == Ok(ds)
    {
      var d := ComputeSighash(sha, p.(index := i % TWO_32));
      if d.Err? {
        DigestErrorStays(sha, p, i + 1, |p.core.inputs|);
        return Err(d.error);
      }
      ds := ds + [d.value];
    }
    return Ok(ds);
  }

  lemma {:induction false} DigestErrorStays(sha: Hash, p: SpendParams, i: nat, n: nat)
    requires i <= n && Digests(sha, p, i).Err?
    ensures Digests(sha, p, n) == Digests(sha, p, i)
  {
    if i < n { DigestErrorStays(sha, p, i, n - 1); }
  }

  method SignAll(sign: (nat, Digest) -> Option<Script>, ds: seq<Digest>) returns (sigs: Option<seq<Script>>)
    ensures sigs == CollectSigs(sign, ds)
  {
    var out: seq<Script> := [];
    for i := 0 to |ds|
      invariant CollectSigs(sign, ds[..i]) == Some(out)
    {
      var sig := sign(i, ds[i]);
      assert ds[..i + 1][..i] == ds[..i];
      if sig.None? {
        CollectedInOrder(sign, ds);
        return None;
      }
      out := out + [sig.value];
    }
    assert ds[..|ds|] == ds;
    return Some(out);
  }

  method ChooseDetails(q: Request) returns (r: Result<Details, SignError>)
    requires Settled(q.tx)
    ensures r == ToMetadata(q)
  {
    hide SumSpent, SumOut;
    TotalsNonNegative(q.tx);
    var input := TotalInput(q.tx.spent);
    if input.None? {
      return Err(InputTotalOverflow);
    }
    var output := TotalOutput(q.tx.core.outputs);
    if output.None? {
      return Err(OutputTotalOverflow);
    }
    var totalIn, totalOut := input.value, output.value;
    var first := q.tx.core.outputs[0];
    var fee: int64 := 0;
    if totalOut <= totalIn {
      fee := totalIn - totalOut;
    }
    if q.details.None? {
      return Ok(Details("script:" + Hex(first.script), "script", first.amount, fee));
    }
    var d := q.details.value;
    if totalOut > totalIn {
      return Err(OutputsExceedInputs);
    }
    if d.destination == "" || d.destinationType == "" || d.amount != first.amount || d.fee != fee {
      return Err(MetadataMismatch);
    }
    return Ok(d);
  }

  lemma TotalsNonNegative(p: SpendParams)
    requires Settled(p)
    ensures SumSpent(p.spent) >= 0 && SumOut(p.core.outputs) >= 0
  {
    SpentPositive(p.spent);
    OutNonNegative(p.core.outputs);
  }

  /** p2qpkTxID: the wallet's own serialization of the fields. */
  method P2QPKTxID(sha: Hash, p: SpendParams) returns (txid: string)
    ensures txid == TxID(sha, Stripped(p.core)) && WireOrder(txid) == Some(sha(sha(Stripped(p.core))))
  {
    hide Stripped, WireOrder;
    var buf := WritePreimage(p.core);
    TxIDIsDoubleHash(sha, buf);
    return Display(sha(sha(buf)));
  }

  /** From accepted parameters to the bytes and the commit to make. */
  method Build(c: Context, q: Request, pubKey: seq<byte>) returns (r: Result<Prepared, SignError>)
    requires Settled(q.tx)
    ensures r == Assemble(c, q, pubKey)
  {
    hide Digests, CollectSigs, Finish;
    var ds := ComputeDigests(c.sha, q.tx);
    if ds.Err? {
      return Err(SighashFailed(ds.error));
    }
    if q.seed.None? {
      return Err(SeedUnreadable);
    }
    if |q.seed.value| != SK_LEN || |pubKey| != PK_LEN || !q.starts {
      return Err(SignerUnavailable);
    }
    var sigs := SignAll(q.sign, ds.value);
    if sigs.None? {
      return Err(SigningFailed);
    }
    r := Complete(c, q, sigs.value, pubKey);
  }

  method Complete(c: Context, q: Request, sigs: seq<Script>, pubKey: Script) returns (r: Result<Prepared, SignError>)
    requires Settled(q.tx)
    ensures r == Finish(c, q, sigs, pubKey)
  {
    hide Serialize, Parser.Strip, Stripped, ToMetadata, Signing.Commit;
    var witnesses: seq<Witness> := [];
    for i := 0 to |sigs|
      invariant witnesses == Witnesses(sigs, pubKey)[..i]
    {
      witnesses := witnesses + [Witness(sigs[i], pubKey)];
    }
    assert witnesses == Witnesses(sigs, pubKey);
    var raw := SerializeBIP144(SignedTx(q.tx.core, witnesses));
    if raw.Err? {
      return Err(SerializeFailed(raw.error));
    }
    var txid := P2QPKTxID(c.sha, q.tx);
    var reparsed := Parser.TxIDFromBIP144(c.sha, raw.value);
    if reparsed != Some(txid) {
      return Err(IdMismatch);
    }
    var d := ChooseDetails(q);
    if d.Err? {
      return Err(d.error);
    }
    return Ok(Prepared(Signing.Commit(q, txid, raw.value, d.value), txid, raw.value, sigs));
  }

  // -------------------------------------------------------------------- the object

  lemma FundingFails(s: Store, addr: string, balance: int64, incoming: seq<Transfer>)
    ensures var o := FundAndRecord(s, addr, balance, incoming).outcome; o.error.Some? ==> o.store == s
  {
    hide FindFrom, Find, PutIncoming;
  }

  const POOL_SIZE: int := 20
  const FUNDING_MIN_CONFIRMATIONS: int := 20
  const KEY_DESTRUCTION_MIN_CONFIRMATIONS: int := 101

  datatype GateError = StoreFailed(error: StoreError) | SpendTxidMismatch | TooFewConfirmations

  class Wallet {
    const index: KeyIndex

    constructor (index: KeyIndex)
      ensures this.index == index
    {
      this.index := index;
    }

    method CheckSource(c: Context, q: Request) returns (e: Option<SignError>, rec: Option<Record>)
      ensures rec == Lookup(index.Contents(), q.from) && e == SourceChecks(c, q, rec)
    {
      hide Lookup, InputError;
      rec := index.GetRecord(q.from);
      if rec.None? {
        return Some(AddressNotFound), rec;
      }
      var r := rec.value;
      if q.recovery {
        if r.state != Spent || !r.hasRecoverable || |r.recoveryPending| > 0 {
          return Some(RecoveryUnavailable), rec;
        }
      } else if r.state != Funded {
        return Some(SourceNotFunded), rec;
      }
      var p := q.tx;
      if |p.core.inputs| == 0 {
        return Some(NothingToSign), rec;
      }
      if |p.core.inputs| != |p.spent| {
        return Some(SpentMismatch), rec;
      }
      if p.index >= |p.core.inputs| {
        return Some(IndexBeyondInputs), rec;
      }
      var outpoints := RecoveryOutpointsFromParams(p);
      if q.recovery {
        var authorized := RecoveryOutpointSubset(r.recoverable, outpoints);
        if !authorized {
          return Some(OutpointsChanged), rec;
        }
      }
      var script := c.scriptOf(q.from);
      if script.None? {
        return Some(ScriptUnavailable), rec;
      }
      e := CheckInputs(p, script.value);
      if e.Some? {
        return;
      }
      return OutputError(p), rec;
    }

    method CheckChange(c: Context, q: Request) returns (e: Option<SignError>)
      ensures e == ChangeCheck(c, q, Lookup(index.Contents(), q.change))
    {
      hide Lookup;
      if q.change == "" {
        return if |q.tx.core.outputs| != 1 then Some(ExtraOutputs) else None;
      }
      var rec := index.GetRecord(q.change);
      if rec.None? {
        return Some(ChangeNotFound);
      }
      if rec.value.state != Fresh {
        return Some(ChangeNotFresh);
      }
      if rec.value.reserved {
        return Some(ChangeReserved);
      }
      var script := c.scriptOf(q.change);
      if script.None? {
        return Some(ScriptUnavailable);
      }
      var matches := CountMatches(q.tx.core.outputs, script.value);
      return if matches == 0 then Some(ChangeOutputMissing) else if matches > 1 then Some(ChangeOutputAmbiguous) else None;
    }

    /** signP2QPKInputs, when nothing else touches the store meanwhile. */
    method SignP2QPKInputs(c: Context, q: Request) returns (r: Result<Prepared, SignError>)
      modifies index
      ensures (index.Contents(), r) == Attempt(old(index.Contents()), c, q)
    {
      hide Lookup, SourceChecks, ChangeCheck, Assemble, Apply, Settled;
      var e, rec := CheckSource(c, q);
      if e.Some? {
        return Err(e.value);
      }
      ChecksSettle(c, q, rec);
      e := CheckChange(c, q);
      if e.Some? {
        return Err(e.value);
      }
      var built := Build(c, q, rec.value.publicKey);
      if built.Err? {
        return Err(built.error);
      }
      AssembledCommits(c, q, rec.value.publicKey);
      e := CommitPrepared(c, built.value.op);
      return if e.Some? then Err(e.value) else built;
    }

    method CommitPrepared(c: Context, op: Op) returns (e: Option<SignError>)
      requires op.SpendOp? || op.RecoverOp?
      modifies index
      ensures var o := Apply(old(index.Contents()), op, c.derive);
              index.Contents() == o.store && e == if o.error.Some? then Some(CommitFailed(o.error.value)) else None
    {
      hide CommitSpend, CommitRecovery;
      var failed;
      match op {
        case SpendOp(from, change, txid, pending) =>
          failed := index.MarkSpendPendingAndReserveChange(from, change, txid, pending);
        case RecoverOp(from, change, txid, outpoints, pending) =>
          failed := index.MarkRecoveryPendingAndReserveChange(from, change, txid, outpoints, pending);
      }
      return if failed.Some? then Some(CommitFailed(failed.value)) else None;
    }

    // ---------------------------------------------------------------------- gates

    /** fillPool: a failure is only logged. */
    method FillPool(derive: Deriver, blobs: seq<Option<seq<byte>>>)
      requires |blobs| >= 20
      modifies index
      ensures index.Contents() == Refilled(old(index.Contents()), 20, derive, blobs)
    {
      var _ := index.PreGenerate(POOL_SIZE, derive, blobs);
    }

    /** Marks an address spent only for the transaction that it is waiting for, and
        then refills the pool. */
    method ObserveSpendConfirmation(addr: string, txid: string, confirmations: int, derive: Deriver, blobs: seq<Option<seq<byte>>>)
      returns (r: Result<bool, GateError>)
      requires |blobs| >= 20
      modifies index
      ensures var rec := Lookup(old(index.Contents()), addr);
              && r == (if rec.None? then Err(StoreFailed(NotFound))
                       else if rec.value.state != SpendPending then Err(StoreFailed(NotPending))
                       else if txid == "" || rec.value.spendTxid != txid then Err(SpendTxidMismatch)
                       else Ok(confirmations >= 1))
              && index.Contents() ==
                 if r == Ok(true) then Refilled(Keystore.MarkSpent(old(index.Contents()), addr).store, 20, derive, blobs)
                 else old(index.Contents())
    {
      hide Find, Refilled;
      var rec := index.GetRecord(addr);
      if rec.None? {
        return Err(StoreFailed(NotFound));
      }
      if rec.value.state != SpendPending {
        return Err(StoreFailed(NotPending));
      }
      if rec.value.spendTxid == "" || rec.value.spendTxid != txid {
        return Err(SpendTxidMismatch);
      }
      if confirmations < 1 {
        return Ok(false);
      }
      var e := index.MarkSpent(addr);
      assert e.None?;
      FillPool(derive, blobs);
      return Ok(true);
    }

    /** Marks what a spent address still holds as recoverable, once it is deep enough. */
    method ObserveRecoverableBalance(addr: string, balance: int64, confirmations: int, outpoints: seq<Outpoint>)
      returns (r: Result<bool, StoreError>)
      modifies index
      ensures var o := Observe(old(index.Contents()), addr, outpoints, balance > 0 && confirmations >= 20);
              index.Contents() == o.outcome.store && r == if o.outcome.error.Some? then Err(o.outcome.error.value) else Ok(o.became)
    {
      hide Observe;
      var mature := balance > 0 && confirmations >= FUNDING_MIN_CONFIRMATIONS;
      var became, e := index.ObserveRecoverableOutpoints(addr, outpoints, mature);
      return if e.Some? then Err(e.value) else Ok(became);
    }

    /** Destroys the key of a spent address, at a depth no smaller than the floor. */
    method PurgeSpentKey(addr: string, confirmations: int, minimum: int) returns (e: Option<GateError>)
      requires minimum >= 101
      modifies index
      ensures confirmations < minimum ==> e == Some(TooFewConfirmations) && index.Contents() == old(index.Contents())
      ensures confirmations >= minimum ==>
                var o := Keystore.Retire(old(index.Contents()), addr);
                index.Contents() == o.store && e == if o.error.Some? then Some(StoreFailed(o.error.value)) else None
    {
      if confirmations < minimum {
        return Some(TooFewConfirmations);
      }
      var failed := index.Retire(addr);
      return if failed.Some? then Some(StoreFailed(failed.value)) else None;
    }

    /** Records the deposits and marks the address funded, once they are deep enough,
        and then refills the pool. */
    method ObserveFundingWithHistory(addr: string, balance: int64, confirmations: int, deposits: seq<Deposit>, at: Time,
                                     derive: Deriver, blobs: seq<Option<seq<byte>>>)
      returns (r: Result<bool, StoreError>)
      requires |blobs| >= 20
      modifies index
      ensures if balance <= 0 || confirmations < 20
              then r == Ok(false) && index.Contents() == old(index.Contents())
              else var o := FundAndRecord(old(index.Contents()), addr, balance, Incoming(addr, deposits, at)).outcome;
                   if o.error.Some? then index.Contents() == old(index.Contents()) && r == Err(o.error.value)
                   else index.Contents() == Refilled(o.store, 20, derive, blobs) && r == Ok(true)
    {
      hide Refilled, FundAndRecord;
      if balance <= 0 || confirmations < FUNDING_MIN_CONFIRMATIONS {
        return Ok(false);
      }
      var records: seq<Transfer> := [];
      for i := 0 to |deposits|
        invariant records == Incoming(addr, deposits, at)[..i]
      {
        records := records + [Transfer("incoming", deposits[i].txid, "", addr, "", deposits[i].amount, 0, at)];
      }
      assert records == Incoming(addr, deposits, at);
      var _, e := index.MarkFundedAndRecordIncoming(addr, balance, records);
      if e.Some? {
        FundingFails(old(index.Contents()), addr, balance, records);
        return Err(e.value);
      }
      FillPool(derive, blobs);
      return Ok(true);
    }

    /** Every record, lifecycle state by lifecycle state, then sorted in place. */
    method ListAddresses() returns (infos: array<Record>)
      ensures Ordered(infos[..]) && multiset(infos[..]) == multiset(Scan(index.Contents(), index.nextIndex))
    {
      hide Scan, InState;
      var unused := index.ListByState(Fresh);
      var funded := index.ListByState(Funded);
      var leaving := index.ListByState(SpendPending);
      var spent := index.ListByState(Spent);
      var retired := index.ListByState(Retired);
      var all := unused + funded + leaving + spent + retired;
      GroupsCover(Scan(index.Contents(), index.nextIndex));
      infos := new Record[|all|](i requires 0 <= i < |all| => all[i]);
      assert infos[..] == all;
      SortByIndex(infos);
    }
  }
}
