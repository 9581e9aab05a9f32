/** Two calls of the signer on an address just funded, one at each edge of what it
    checks. */
module SigningExamples {
  import opened Common
  import opened Bytes
  import opened Transaction
  import opened Sighash
  import opened Keystore
  import opened Lifecycle
  import opened Signing
  import opened Interleaving
  import Fees
  import VirtualSize

  function Zeros(n: nat): (bs: seq<byte>)
    ensures |bs| == n
  {
    seq(n, i => 0)
  }

  function AnyHash(bs: seq<byte>): Digest { Zeros(32) }

  function AnyScript(addr: string): Option<Script> { Some(Zeros(34)) }

  function AnyKey(i: nat): Derived { Derived(Zeros(PK_LEN), "addr") }

  function AnySignature(i: nat, d: Digest): Option<Script> { Some(Zeros(SIG_LEN)) }

  const WORLD: Context := Context(AnyHash, AnyScript, AnyKey)

  /** One input of `takes` and one output of `pays`, without details or change. */
  function Spending(takes: int64, pays: int64): Request {
    var core := Core(2, [TxInput(Zeros(32), 0, 0)], [TxOutput(pays, Zeros(34))], 0);
    Request(SpendParams(core, [SpentUtxo(takes, Zeros(34))], 0), "addr", "", false, None, Some(Zeros(SK_LEN)), true, AnySignature, 1)
  }

  const FRESH_RECORD: Record := Record(0, "addr", Zeros(PK_LEN), [1], Fresh, false, [], [], "", false, "")

  const FUNDED_RECORD: Record := FRESH_RECORD.(state := Funded)

  const FUNDED_STORE: Store := Store(map[0 := FUNDED_RECORD], 1, map[], map[])

  /** The address is generated and funded, and the signer reads what it needs. */
  function Opening(q: Request): seq<Event> { [Other(GenerateOp(Some([1]))), Other(FundOp("addr")), Begin(q), ReadChange] }

  lemma FundedStore(q: Request)
    ensures Exec(WORLD, Opening(q)[..2]) == System(FUNDED_STORE, None, [])
  {
    var es := Opening(q);
    var generated := Store(map[0 := FRESH_RECORD], 1, map[], map[]);
    assert es[..1][..0] == [] && es[..2][..1] == es[..1];
    assert Exec(WORLD, es[..1]) == System(generated, None, []);
    assert Find(generated, "addr") == Some(0);
  }

  lemma Opened(takes: int64, pays: int64)
    ensures var q := Spending(takes, pays);
            Exec(WORLD, Opening(q)) == System(FUNDED_STORE, Some(ChangeRead(q, Some(FUNDED_RECORD), None)), [])
  {
    var q := Spending(takes, pays);
    var es := Opening(q);
    FundedStore(q);
    assert Find(FUNDED_STORE, "addr") == Some(0) && Find(FUNDED_STORE, "").None?;
    hide Find, FindFrom;
    assert es[..3][..2] == es[..2] && es[..3] == es[..|es| - 1];
    assert Exec(WORLD, es[..3]) == System(FUNDED_STORE, Some(SourceRead(q, Some(FUNDED_RECORD))), []);
  }

  lemma Sized(pays: int64)
    requires pays >= 0
    ensures Fees.ValidateStandard(1, [TxOutput(pays, Zeros(34))]).Ok?
  {
    var outputs := [TxOutput(pays, Zeros(34))];
    assert outputs[..0] == [];
    assert VirtualSize.OutputsLen(outputs) == 43;
  }

  lemma SumsOfOne(takes: int64, pays: int64)
    ensures SumSpent(Spending(takes, pays).tx.spent) == takes && SumOut(Spending(takes, pays).tx.core.outputs) == pays
  {
    var q := Spending(takes, pays);
    assert q.tx.spent[..0] == [] && q.tx.core.outputs[..0] == [];
  }

  lemma Passes(takes: int64, pays: int64)
    requires takes > 0 && pays >= 0
    ensures Checks(WORLD, Spending(takes, pays), Some(FUNDED_RECORD), None).None? && Settled(Spending(takes, pays).tx)
  {
    hide Checks, Fees.ValidateStandard, Zeros;
    Sized(pays);
    AcceptedIff(WORLD, Spending(takes, pays), Some(FUNDED_RECORD), None);
  }

  lemma Totals(takes: int64, pays: int64)
    requires Settled(Spending(takes, pays).tx)
    ensures var q := Spending(takes, pays);
            && ToMetadata(q).Ok? && ToMetadata(q).value.amount == pays
            && ToMetadata(q).value.fee == if pays <= takes then takes - pays else 0
  {
    SumsOfOne(takes, pays);
    hide SumSpent, SumOut, Zeros, Settled, Hex;
  }

  /** Every such call with positive input and no negative output reaches the commit. */
  lemma Prepares(takes: int64, pays: int64)
    requires takes > 0 && pays >= 0
    ensures var q := Spending(takes, pays);
            && Prepare(WORLD, q, Some(FUNDED_RECORD), None).Ok? && Settled(q.tx)
            && ToMetadata(q).Ok? && ToMetadata(q).value.amount == pays
            && ToMetadata(q).value.fee == if pays <= takes then takes - pays else 0
  {
    hide Prepare, ToMetadata, Answered, Checks, Settled;
    var q := Spending(takes, pays);
    assert q.seed.Some? && |q.seed.value| == SK_LEN && q.starts && |q.tx.core.inputs| == 1 && q.sign == AnySignature && |FUNDED_RECORD.publicKey| == PK_LEN;
    hide Spending, FUNDED_RECORD, WORLD;
    Passes(takes, pays);
    Totals(takes, pays);
    OneAnswer(q);
    PreparedIff(WORLD, q, Some(FUNDED_RECORD), None);
  }

  lemma OneAnswer(q: Request)
    requires Settled(q.tx) && |q.tx.core.inputs| == 1 && q.sign == AnySignature
    ensures Answered(WORLD, q, 0)
  {
    hide SighashOf;
    IndexInRange(WORLD.sha, q.tx, 0);
  }

  /** Paying out two satoshis of one is signed, stored with fee 0 and handed out. */
  lemma OverspendExample()
    ensures var y := Exec(WORLD, Opening(Spending(1, 2)));
            && y.job.Some? && y.job.value.ChangeRead?
            && var (z, r) := Conclude(WORLD, y, y.job.value);
               r.Ok? && r.value.txid in z.store.pending && z.store.pending[r.value.txid].amount == 2
               && z.store.pending[r.value.txid].fee == 0
  {
    hide Prepare, Exec, Stands, ToMetadata, Settle;
    var q := Spending(1, 2);
    Opened(1, 2);
    Prepares(1, 2);
    PreparedStands(WORLD, q, Some(FUNDED_RECORD), None);
    var p := Prepare(WORLD, q, Some(FUNDED_RECORD), None).value;
    StandsParts(WORLD, q, Zeros(PK_LEN), p);
    CommitsFirst(q, p);
  }

  lemma FirstCommit(b: Broadcast)
    requires |b.txid| == 64 && b.source == "addr" && b.kind == "spend" && b.signedAt != 0 && b.rawHex != ""
    ensures var o := CommitSpend(FUNDED_STORE, "addr", "", b.txid, [b]);
            if b.amount > 0 && b.fee >= 0 then o.error.None? && o.store.pending == map[b.txid := b]
            else o.error == Some(IncompleteBroadcast)
  {
    assert Find(FUNDED_STORE, "addr") == Some(0);
    hide Find, FindFrom;
  }

  lemma CommitsFirst(q: Request, p: Prepared)
    requires Stands(WORLD, q, Zeros(PK_LEN), p) && Settled(q.tx) && ToMetadata(q).Ok?
    requires q.from == "addr" && q.change == "" && !q.recovery && q.now == 1
    requires p.op == Signing.Commit(q, p.txid, p.raw, ToMetadata(q).value)
    ensures var amount, fee := ToMetadata(q).value.amount, ToMetadata(q).value.fee;
            var (store, r) := Settle(FUNDED_STORE, WORLD, p);
            if amount > 0 && fee >= 0 then
              r == Ok(p) && p.txid in store.pending && store.pending[p.txid].amount == amount && store.pending[p.txid].fee == fee
            else r == Err(CommitFailed(IncompleteBroadcast))
  {
    hide CommitSpend, Stands, ToMetadata, Hex, Settled, FUNDED_STORE, WORLD, Zeros;
    RawNotEmpty(WORLD, q, Zeros(PK_LEN), p);
    assert p.op.SpendOp? && |p.op.pending| == 1;
    FirstCommit(p.op.pending[0]);
  }

  /** An output of nothing passes every check and is refused only by the commit. */
  lemma ZeroOutputExample()
    ensures var y := Exec(WORLD, Opening(Spending(1, 0)));
            && y.job.Some? && y.job.value.ChangeRead?
            && Prepare(WORLD, y.job.value.q, y.job.value.source, y.job.value.other).Ok?
            && Conclude(WORLD, y, y.job.value).1 == Err(CommitFailed(IncompleteBroadcast))
  {
    hide Prepare, Exec, Stands, ToMetadata, Settle;
    var q := Spending(1, 0);
    Opened(1, 0);
    Prepares(1, 0);
    PreparedStands(WORLD, q, Some(FUNDED_RECORD), None);
    var p := Prepare(WORLD, q, Some(FUNDED_RECORD), None).value;
    StandsParts(WORLD, q, Zeros(PK_LEN), p);
    CommitsFirst(q, p);
  }
}
