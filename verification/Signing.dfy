/** signP2QPKInputs of wallet/wallet.go: the checks, the signatures, the bytes and
    the commit, with the store free to change in between. */
module Signing {
  import opened Common
  import opened Bytes
  import opened Transaction
  import opened Sighash
  import opened Keystore
  import Parser
  import Grammar
  import Fees

  datatype SignError =
    | AddressNotFound
    | SourceNotFunded
    | RecoveryUnavailable
    | NothingToSign
    | SpentMismatch
    | IndexBeyondInputs
    | OutpointsChanged
    | ScriptUnavailable
    | DuplicatePrevout
    | NonPositiveSpent
    | FromScriptMismatch
    | NoPayment
    | NegativePayment
    | NonStandard(standard: Fees.StandardError)
    | ChangeNotFound
    | ChangeNotFresh
    | ChangeReserved
    | ChangeOutputMissing
    | ChangeOutputAmbiguous
    | ExtraOutputs
    | SighashFailed(sighash: SighashError)
    | SeedUnreadable
    | SignerUnavailable
    | SigningFailed
    | SerializeFailed(serialize: TxError)
    | IdMismatch
    | InputTotalOverflow
    | OutputTotalOverflow
    | OutputsExceedInputs
    | MetadataMismatch
    | CommitFailed(commit: StoreError)

  datatype Details = Details(destination: string, destinationType: string, amount: int64, fee: int64)

  /** One signing call: what to sign and for whom, what decrypting the blob yields and
      whether the signer starts, what it answers to its i-th digest, and the clock. */
  datatype Request = Request(
    tx: SpendParams, from: string, change: string, recovery: bool, details: Option<Details>,
    seed: Option<seq<byte>>, starts: bool, sign: (nat, Digest) -> Option<Script>, now: Time)

  /** Hashing, the script of an address if it is one, and key derivation. */
  datatype Context = Context(sha: Hash, scriptOf: string -> Option<Script>, derive: Deriver)

  // -------------------------------------------------------------------- the checks

  function SourceError(r: Record, q: Request): Option<SignError> {
    if q.recovery then
      if r.state != Spent || !r.hasRecoverable || r.recoveryPending != [] then Some(RecoveryUnavailable) else None
    else if r.state != Funded then Some(SourceNotFunded) else None
  }

  function ShapeError(q: Request): Option<SignError> {
    if q.tx.core.inputs == [] then Some(NothingToSign)
    else if |q.tx.core.inputs| != |q.tx.spent| then Some(SpentMismatch)
    else if q.tx.index >= |q.tx.core.inputs| then Some(IndexBeyondInputs)
    else None
  }

  /** recoveryOutpointsFromParams. */
  function Outpoints(p: SpendParams): (os: seq<Outpoint>)
    ensures |os| == |p.core.inputs|
  {
    seq(|p.core.inputs|, i requires 0 <= i < |p.core.inputs| =>
      Outpoint(Display(p.core.inputs[i].txid), p.core.inputs[i].vout, if i < |p.spent| then p.spent[i].amount else 0))
  }

  predicate SamePrevout(a: TxInput, b: TxInput) { a.txid == b.txid && a.vout == b.vout }

  /** The first complaint among the first `n` inputs. */
  function InputError(p: SpendParams, script: Script, n: nat): Option<SignError>
    requires n <= |p.core.inputs| && |p.core.inputs| == |p.spent|
  {
    if n == 0 then None
    else if InputError(p, script, n - 1).Some? then InputError(p, script, n - 1)
    else if exists i :: 0 <= i < n - 1 && SamePrevout(p.core.inputs[i], p.core.inputs[n - 1]) then Some(DuplicatePrevout)
    else if p.spent[n - 1].amount <= 0 then Some(NonPositiveSpent)
    else if p.spent[n - 1].script != script then Some(FromScriptMismatch)
    else None
  }

  function OutputError(p: SpendParams): Option<SignError> {
    if p.core.outputs == [] then Some(NoPayment)
    else if !NonNegative(p.core.outputs) then Some(NegativePayment)
    else
      match Fees.ValidateStandard(|p.core.inputs|, p.core.outputs)
      case Err(e) => Some(NonStandard(e))
      case Ok(_) => None
  }

  /** How many of the outputs pay to `script`. */
  function Paying(outputs: seq<TxOutput>, script: Script): nat {
    if outputs == [] then 0
    else Paying(outputs[..|outputs| - 1], script) + if outputs[|outputs| - 1].script == script then 1 else 0
  }

  function ChangeCheck(c: Context, q: Request, changeRecord: Option<Record>): Option<SignError> {
    if q.change == "" then
      if |q.tx.core.outputs| != 1 then Some(ExtraOutputs) else None
    else if changeRecord.None? then Some(ChangeNotFound)
    else if changeRecord.value.state != Fresh then Some(ChangeNotFresh)
    else if changeRecord.value.reserved then Some(ChangeReserved)
    else if c.scriptOf(q.change).None? then Some(ScriptUnavailable)
    else
      var matches := Paying(q.tx.core.outputs, c.scriptOf(q.change).value);
      if matches == 0 then Some(ChangeOutputMissing)
      else if matches > 1 then Some(ChangeOutputAmbiguous)
      else None
  }

  // ------------------------------------------------------------------ the totals

  function SumSpent(spent: seq<SpentUtxo>): int {
    if spent == [] then 0 else SumSpent(spent[..|spent| - 1]) + spent[|spent| - 1].amount
  }

  function SumOut(outputs: seq<TxOutput>): int {
    if outputs == [] then 0 else SumOut(outputs[..|outputs| - 1]) + outputs[|outputs| - 1].amount
  }

  /** What the checks leave true of the parameters. */
  predicate Settled(p: SpendParams) {
    && 0 < |p.core.inputs| <= Fees.SAFE_MAX_INPUTS && |p.spent| == |p.core.inputs|
    && (forall i :: 0 <= i < |p.spent| ==> p.spent[i].amount > 0)
    && p.core.outputs != [] && NonNegative(p.core.outputs)
  }

  lemma {:induction false} SpentPositive(spent: seq<SpentUtxo>)
    requires forall i :: 0 <= i < |spent| ==> spent[i].amount > 0
    ensures SumSpent(spent) >= 0 && (spent != [] ==> SumSpent(spent) > 0)
  {
    if spent != [] { SpentPositive(spent[..|spent| - 1]); }
  }

  lemma {:induction false} OutNonNegative(outputs: seq<TxOutput>)
    requires NonNegative(outputs)
    ensures SumOut(outputs) >= 0
  {
    if outputs != [] { OutNonNegative(outputs[..|outputs| - 1]); }
  }

  /** The details to store: the caller's when they match the outputs, otherwise the
      first output and what is left for the fee. */
  function ToMetadata(q: Request): Result<Details, SignError>
    requires Settled(q.tx)
  {
    SpentPositive(q.tx.spent);
    OutNonNegative(q.tx.core.outputs);
    var totalIn := SumSpent(q.tx.spent);
    var totalOut := SumOut(q.tx.core.outputs);
    if totalIn > MAX_INT64 then Err(InputTotalOverflow)
    else if totalOut > MAX_INT64 then Err(OutputTotalOverflow)
    else
      var first := q.tx.core.outputs[0];
      var fee := if totalOut <= totalIn then totalIn - totalOut else 0;
      if q.details.None? then Ok(Details("script:" + Hex(first.script), "script", first.amount, fee))
      else
        var d := q.details.value;
        if totalOut > totalIn then Err(OutputsExceedInputs)
        else if d.destination == "" || d.destinationType == "" || d.amount != first.amount || d.fee != fee then Err(MetadataMismatch)
        else Ok(d)
  }

  // ------------------------------------------------------- from checks to the commit

  /** The parameters as input `i` signs them. */
  function At(p: SpendParams, i: nat): SpendParams { p.(index := i % TWO_32) }

  function Digests(sha: Hash, p: SpendParams, n: nat): Result<seq<Digest>, SighashError> {
    if n == 0 then Ok([])
    else
      match Digests(sha, p, n - 1)
      case Err(e) => Err(e)
      case Ok(ds) =>
        match SighashOf(sha, At(p, n - 1))
        case Err(e) => Err(e)
        case Ok(d) => Ok(ds + [d])
  }

  function CollectSigs(sign: (nat, Digest) -> Option<Script>, ds: seq<Digest>): Option<seq<Script>> {
    if ds == [] then Some([])
    else
      var n := |ds| - 1;
      match CollectSigs(sign, ds[..n])
      case None => None
      case Some(rest) => if sign(n, ds[n]).None? then None else Some(rest + [sign(n, ds[n]).value])
  }

  function Witnesses(sigs: seq<Script>, pubKey: Script): (ws: seq<Witness>)
    ensures |ws| == |sigs|
  {
    seq(|sigs|, i requires 0 <= i < |sigs| => Witness(sigs[i], pubKey))
  }

  /** What a call is ready to commit and, if that succeeds, to hand out. */
  datatype Prepared = Prepared(op: Op, txid: string, raw: seq<byte>, sigs: seq<Script>)

  /** The checks up to the change output. */
  function SourceChecks(c: Context, q: Request, source: Option<Record>): Option<SignError> {
    if source.None? then Some(AddressNotFound)
    else if SourceError(source.value, q).Some? then SourceError(source.value, q)
    else if ShapeError(q).Some? then ShapeError(q)
    else if q.recovery && !Authorizes(source.value.recoverable, Outpoints(q.tx)) then Some(OutpointsChanged)
    else if c.scriptOf(q.from).None? then Some(ScriptUnavailable)
    else if InputError(q.tx, c.scriptOf(q.from).value, |q.tx.core.inputs|).Some? then
      InputError(q.tx, c.scriptOf(q.from).value, |q.tx.core.inputs|)
    else OutputError(q.tx)
  }

  function Checks(c: Context, q: Request, source: Option<Record>, changeRecord: Option<Record>): Option<SignError> {
    if SourceChecks(c, q, source).Some? then SourceChecks(c, q, source) else ChangeCheck(c, q, changeRecord)
  }

  /** No complaint means that every input is new, positive and paid by `script`. */
  lemma {:induction false} InputsAccepted(p: SpendParams, script: Script, n: nat)
    requires n <= |p.core.inputs| && |p.core.inputs| == |p.spent|
    ensures InputError(p, script, n).None? <==>
              && (forall i :: 0 <= i < n ==> p.spent[i].amount > 0 && p.spent[i].script == script)
              && (forall i, j :: 0 <= i < j < n ==> !SamePrevout(p.core.inputs[i], p.core.inputs[j]))
  {
    if n > 0 { InputsAccepted(p, script, n - 1); }
  }

  /** A complaint is about the first input that repeats a prevout, is not positive or is
      not paid by `script`. */
  lemma {:induction false} InputErrorMeans(p: SpendParams, script: Script, n: nat)
    requires n <= |p.core.inputs| && |p.core.inputs| == |p.spent| && InputError(p, script, n).Some?
    ensures exists i :: 0 <= i < n && InputError(p, script, i).None? &&
              var again := exists j :: 0 <= j < i && SamePrevout(p.core.inputs[j], p.core.inputs[i]);
              var e := InputError(p, script, n).value;
              if again then e == DuplicatePrevout
              else if p.spent[i].amount <= 0 then e == NonPositiveSpent
              else p.spent[i].script != script && e == FromScriptMismatch
  {
    if InputError(p, script, n - 1).Some? {
      InputErrorMeans(p, script, n - 1);
    } else {
      assert InputError(p, script, n - 1).None?;
    }
  }

  /** What a refusal of the source or of the lists means. */
  lemma SourceRefusal(c: Context, q: Request, source: Option<Record>)
    ensures var e := SourceChecks(c, q, source);
            var ready := source.Some? && SourceError(source.value, q).None?;
            && (e == Some(AddressNotFound) <==> source.None?)
            && (e == Some(SourceNotFunded) <==> source.Some? && !q.recovery && source.value.state != Funded)
            && (e == Some(RecoveryUnavailable) <==>
                  source.Some? && q.recovery
                  && (source.value.state != Spent || !source.value.hasRecoverable || source.value.recoveryPending != []))
            && (e == Some(NothingToSign) <==> ready && q.tx.core.inputs == [])
            && (e == Some(SpentMismatch) <==> ready && q.tx.core.inputs != [] && |q.tx.spent| != |q.tx.core.inputs|)
            && (e == Some(IndexBeyondInputs) <==> ready && 0 < |q.tx.core.inputs| == |q.tx.spent| <= q.tx.index)
  {
    hide InputError, Fees.ValidateStandard, Authorizes, Outpoints;
    if |q.tx.core.inputs| == |q.tx.spent| && c.scriptOf(q.from).Some?
       && InputError(q.tx, c.scriptOf(q.from).value, |q.tx.core.inputs|).Some? {
      InputErrorMeans(q.tx, c.scriptOf(q.from).value, |q.tx.core.inputs|);
    }
  }

  lemma ChecksSettle(c: Context, q: Request, source: Option<Record>)
    requires SourceChecks(c, q, source).None?
    ensures source.Some? && Settled(q.tx)
  {
    hide Authorizes, InputError;
    InputsAccepted(q.tx, c.scriptOf(q.from).value, |q.tx.core.inputs|);
  }

  function Prepare(c: Context, q: Request, source: Option<Record>, changeRecord: Option<Record>): Result<Prepared, SignError> {
    if Checks(c, q, source, changeRecord).Some? then Err(Checks(c, q, source, changeRecord).value)
    else
      ChecksSettle(c, q, source);
      Assemble(c, q, source.value.publicKey)
  }

  const SK_LEN: nat := 64

  /** Decrypting the seed and ImportSigner. */
  function KeyError(q: Request, pubKey: seq<byte>): Option<SignError> {
    if q.seed.None? then Some(SeedUnreadable)
    else if |q.seed.value| != SK_LEN || |pubKey| != PK_LEN || !q.starts then Some(SignerUnavailable)
    else None
  }

  /** Sighashes, signatures, bytes, ids and totals. */
  function Assemble(c: Context, q: Request, pubKey: seq<byte>): Result<Prepared, SignError>
    requires Settled(q.tx)
  {
    match Digests(c.sha, q.tx, |q.tx.core.inputs|)
    case Err(e) => Err(SighashFailed(e))
    case Ok(ds) =>
      if KeyError(q, pubKey).Some? then Err(KeyError(q, pubKey).value)
      else
        match CollectSigs(q.sign, ds)
        case None => Err(SigningFailed)
        case Some(sigs) => Finish(c, q, sigs, pubKey)
  }

  function Finish(c: Context, q: Request, sigs: seq<Script>, pubKey: Script): Result<Prepared, SignError>
    requires Settled(q.tx)
  {
    match Serialize(SignedTx(q.tx.core, Witnesses(sigs, pubKey)))
    case Err(e) => Err(SerializeFailed(e))
    case Ok(raw) =>
      var txid := TxID(c.sha, Stripped(q.tx.core));
      if Parser.Strip(raw).None? || TxID(c.sha, Parser.Strip(raw).value) != txid then Err(IdMismatch)
      else
        match ToMetadata(q)
        case Err(e) => Err(e)
        case Ok(d) => Ok(Prepared(Commit(q, txid, raw, d), txid, raw, sigs))
  }

  function Kind(q: Request): string { if q.recovery then "recovery" else "spend" }

  /** The store call that the signer ends with. */
  function Commit(q: Request, txid: string, raw: seq<byte>, d: Details): Op {
    var b := Broadcast(txid, Hex(raw), Kind(q), q.from, d.destination, d.destinationType, d.amount, d.fee, q.now);
    if q.recovery then RecoverOp(q.from, q.change, txid, Outpoints(q.tx), [b]) else SpendOp(q.from, q.change, txid, [b])
  }

  /** A whole call on a store that nothing else changes meanwhile. */
  function Attempt(s: Store, c: Context, q: Request): (Store, Result<Prepared, SignError>) {
    match Prepare(c, q, Lookup(s, q.from), Lookup(s, q.change))
    case Err(e) => (s, Err(e))
    case Ok(p) => Settle(s, c, p)
  }

  /** The commit, and what the caller gets. */
  function Settle(s: Store, c: Context, p: Prepared): (Store, Result<Prepared, SignError>) {
    var o := Apply(s, p.op, c.derive);
    (o.store, if o.error.Some? then Err(CommitFailed(o.error.value)) else Ok(p))
  }

  /** What is prepared ends in one of the two commits. */
  lemma AssembledCommits(c: Context, q: Request, pubKey: seq<byte>)
    requires Settled(q.tx) && Assemble(c, q, pubKey).Ok?
    ensures var op := Assemble(c, q, pubKey).value.op;
            if q.recovery then op.RecoverOp? else op.SpendOp?
  {
    hide Serialize, Parser.Strip, Stripped, TxID, Digests, CollectSigs, ToMetadata;
  }

  // ---------------------------------------------------------------- theorems

  predicate PaysOnce(outputs: seq<TxOutput>, script: Script) {
    exists i :: 0 <= i < |outputs| && PaysOnlyAt(outputs, script, i)
  }

  predicate PaysOnlyAt(outputs: seq<TxOutput>, script: Script, i: int) {
    forall j :: 0 <= j < |outputs| ==> (outputs[j].script == script <==> j == i)
  }

  lemma {:induction false} PayingCounts(outputs: seq<TxOutput>, script: Script)
    ensures Paying(outputs, script) == 0 <==> forall j :: 0 <= j < |outputs| ==> outputs[j].script != script
    ensures Paying(outputs, script) == 1 <==> PaysOnce(outputs, script)
  {
    if outputs != [] {
      var n := |outputs| - 1;
      var init := outputs[..n];
      PayingCounts(init, script);
      if Paying(outputs, script) == 1 {
        if outputs[n].script == script {
          assert PaysOnlyAt(outputs, script, n);
        } else {
          var i :| 0 <= i < |init| && PaysOnlyAt(init, script, i);
          assert PaysOnlyAt(outputs, script, i);
        }
      }
      if i :| 0 <= i < |outputs| && PaysOnlyAt(outputs, script, i) {
        assert i < n ==> PaysOnlyAt(init, script, i);
      }
    }
  }

  /** Who may sign: the source's state, or its authorized outpoints. */
  predicate SourceReady(r: Record, q: Request) {
    if q.recovery then r.state == Spent && r.hasRecoverable && r.recoveryPending == [] && Authorizes(r.recoverable, Outpoints(q.tx))
    else r.state == Funded
  }

  predicate InputsReady(p: SpendParams, script: Script) {
    && (forall i :: 0 <= i < |p.spent| ==> p.spent[i].amount > 0 && p.spent[i].script == script)
    && forall i, j :: 0 <= i < j < |p.core.inputs| ==> !SamePrevout(p.core.inputs[i], p.core.inputs[j])
  }

  /** Change goes to one output, at a fresh address that nothing else is to use. */
  predicate ChangeReady(c: Context, q: Request, other: Option<Record>) {
    if q.change == "" then |q.tx.core.outputs| == 1
    else
      && other.Some? && other.value.state == Fresh && !other.value.reserved
      && c.scriptOf(q.change).Some? && PaysOnce(q.tx.core.outputs, c.scriptOf(q.change).value)
  }

  lemma ChangeAcceptedIff(c: Context, q: Request, other: Option<Record>)
    ensures ChangeCheck(c, q, other).None? <==> ChangeReady(c, q, other)
  {
    hide Paying, PaysOnce;
    if c.scriptOf(q.change).Some? { PayingCounts(q.tx.core.outputs, c.scriptOf(q.change).value); }
  }

  lemma SourceAcceptedIff(c: Context, q: Request, source: Option<Record>)
    ensures SourceChecks(c, q, source).None? <==>
              && source.Some? && SourceReady(source.value, q)
              && 0 < |q.tx.core.inputs| == |q.tx.spent| && q.tx.index < |q.tx.core.inputs|
              && c.scriptOf(q.from).Some? && InputsReady(q.tx, c.scriptOf(q.from).value)
              && q.tx.core.outputs != [] && NonNegative(q.tx.core.outputs)
              && Fees.ValidateStandard(|q.tx.core.inputs|, q.tx.core.outputs).Ok?
  {
    hide Authorizes, InputError, Fees.ValidateStandard, Outpoints;
    if |q.tx.core.inputs| == |q.tx.spent| && c.scriptOf(q.from).Some? {
      InputsAccepted(q.tx, c.scriptOf(q.from).value, |q.tx.core.inputs|);
    }
  }

  /** What the checks accept, with every loop replaced by what it decides. */
  lemma AcceptedIff(c: Context, q: Request, source: Option<Record>, other: Option<Record>)
    ensures Checks(c, q, source, other).None? <==>
              && source.Some? && SourceReady(source.value, q)
              && 0 < |q.tx.core.inputs| == |q.tx.spent| && q.tx.index < |q.tx.core.inputs|
              && c.scriptOf(q.from).Some? && InputsReady(q.tx, c.scriptOf(q.from).value)
              && q.tx.core.outputs != [] && NonNegative(q.tx.core.outputs)
              && Fees.ValidateStandard(|q.tx.core.inputs|, q.tx.core.outputs).Ok?
              && ChangeReady(c, q, other)
  {
    hide SourceChecks, ChangeCheck, SourceReady, InputsReady, ChangeReady, NonNegative, Fees.ValidateStandard;
    SourceAcceptedIff(c, q, source);
    ChangeAcceptedIff(c, q, other);
  }

  /** Every digest exists and is the one of its own input. */
  lemma {:induction false} DigestsExist(sha: Hash, p: SpendParams, n: nat)
    requires n <= |p.core.inputs| <= Fees.SAFE_MAX_INPUTS && |p.spent| == |p.core.inputs|
    ensures Digests(sha, p, n).Ok? && |Digests(sha, p, n).value| == n
    ensures forall i :: 0 <= i < n ==> SighashOf(sha, p.(index := i)) == Ok(Digests(sha, p, n).value[i])
  {
    hide SighashOf;
    if n > 0 {
      DigestsExist(sha, p, n - 1);
      IndexInRange(sha, p, n - 1);
    }
  }

  lemma IndexInRange(sha: Hash, p: SpendParams, i: nat)
    requires i < |p.core.inputs| <= Fees.SAFE_MAX_INPUTS && |p.spent| == |p.core.inputs|
    ensures SighashOf(sha, p.(index := i)).Ok?
  {
    hide Message;
  }

  lemma {:induction false} CollectedInOrder(sign: (nat, Digest) -> Option<Script>, ds: seq<Digest>)
    ensures CollectSigs(sign, ds).None? <==> exists i :: 0 <= i < |ds| && sign(i, ds[i]).None?
    ensures CollectSigs(sign, ds).Some? ==> |CollectSigs(sign, ds).value| == |ds|
    ensures CollectSigs(sign, ds).Some? ==> forall i :: 0 <= i < |ds| ==> sign(i, ds[i]) == Some(CollectSigs(sign, ds).value[i])
  {
    if ds != [] { CollectedInOrder(sign, ds[..|ds| - 1]); }
  }

  /** The cross-check between the two serializers never rejects. */
  lemma IdsNeverDiffer(c: Context, q: Request, sigs: seq<Script>, pubKey: Script)
    requires Settled(q.tx)
    ensures Finish(c, q, sigs, pubKey) != Err(IdMismatch)
  {
    hide Serialize, Parser.Strip, Stripped, TxID, SumSpent, SumOut;
    var tx := SignedTx(q.tx.core, Witnesses(sigs, pubKey));
    if Serialize(tx).Ok? { Grammar.StripOfSerialize(tx); }
  }

  /** Witness `i` is signature `i` and the key. */
  predicate Carries(ws: seq<Witness>, sigs: seq<Script>, pubKey: seq<byte>) {
    |ws| == |sigs| && forall i :: 0 <= i < |ws| ==> ws[i].sig == sigs[i] && ws[i].pubKey == pubKey
  }

  /** Everything that a prepared call stands for: its bytes carry one signature for each
      input, made on that input's own digest, and strip to the transaction whose id it
      commits to. */
  predicate Stands(c: Context, q: Request, pubKey: seq<byte>, p: Prepared) {
    && Settled(q.tx) && |pubKey| == PK_LEN
    && p.txid == TxID(c.sha, Stripped(q.tx.core)) && Parser.Strip(p.raw) == Some(Stripped(q.tx.core))
    && |p.sigs| == |q.tx.core.inputs|
    && Carries(Witnesses(p.sigs, pubKey), p.sigs, pubKey)
    && Serialize(SignedTx(q.tx.core, Witnesses(p.sigs, pubKey))) == Ok(p.raw)
    && (forall i :: 0 <= i < |p.sigs| ==>
          var digest := SighashOf(c.sha, q.tx.(index := i));
          digest.Ok? && q.sign(i, digest.value) == Some(p.sigs[i]))
    && ToMetadata(q).Ok? && p.op == Commit(q, p.txid, p.raw, ToMetadata(q).value)
  }

  lemma PreparedStands(c: Context, q: Request, source: Option<Record>, changeRecord: Option<Record>)
    requires Prepare(c, q, source, changeRecord).Ok?
    ensures source.Some? && Checks(c, q, source, changeRecord).None?
    ensures Stands(c, q, source.value.publicKey, Prepare(c, q, source, changeRecord).value)
  {
    hide Checks, Serialize, Parser.Strip, Stripped, TxID, SumSpent, SumOut, SighashOf, Digests, CollectSigs, ToMetadata, Commit, Settled;
    assert SourceChecks(c, q, source).None? by { ChecksParts(c, q, source, changeRecord); }
    ChecksSettle(c, q, source);
    AssembledStands(c, q, source.value.publicKey);
  }

  lemma ChecksParts(c: Context, q: Request, source: Option<Record>, changeRecord: Option<Record>)
    ensures Checks(c, q, source, changeRecord).None? <==> SourceChecks(c, q, source).None? && ChangeCheck(c, q, changeRecord).None?
  {
    hide SourceChecks, ChangeCheck;
  }

  lemma AssembledStands(c: Context, q: Request, pubKey: seq<byte>)
    requires Settled(q.tx) && Assemble(c, q, pubKey).Ok?
    ensures Stands(c, q, pubKey, Assemble(c, q, pubKey).value)
  {
    hide Serialize, Parser.Strip, Stripped, TxID, SumSpent, SumOut, SighashOf, Digests, CollectSigs, ToMetadata, Commit;
    DigestsExist(c.sha, q.tx, |q.tx.core.inputs|);
    var ds := Digests(c.sha, q.tx, |q.tx.core.inputs|).value;
    CollectedInOrder(q.sign, ds);
    var sigs := CollectSigs(q.sign, ds).value;
    var tx := SignedTx(q.tx.core, Witnesses(sigs, pubKey));
    Grammar.StripOfSerialize(tx);
  }

  /** The signer answers input `i` with a signature of the right length. */
  predicate Answered(c: Context, q: Request, i: uint32) {
    var digest := SighashOf(c.sha, q.tx.(index := i));
    digest.Ok? && q.sign(i, digest.value).Some? && |q.sign(i, digest.value).value| == 17088
  }

  lemma FinishedIff(c: Context, q: Request, sigs: seq<Script>, pubKey: Script)
    requires Settled(q.tx) && |sigs| == |q.tx.core.inputs|
    ensures Finish(c, q, sigs, pubKey).Ok? <==>
              |pubKey| == PK_LEN && (forall i :: 0 <= i < |sigs| ==> |sigs[i]| == SIG_LEN) && ToMetadata(q).Ok?
  {
    hide Parser.Strip, Stripped, TxID, SumSpent, SumOut, ToMetadata, Extended;
    IdsNeverDiffer(c, q, sigs, pubKey);
    var ws := Witnesses(sigs, pubKey);
    WitnessErrorNone(ws);
    hide WitnessError;
    if Serialize(SignedTx(q.tx.core, ws)).Ok? {
      forall i | 0 <= i < |sigs| ensures |sigs[i]| == SIG_LEN && |pubKey| == PK_LEN { assert GoodWitness(ws[i]); }
    }
  }

  lemma AssembledIff(c: Context, q: Request, pubKey: seq<byte>)
    requires Settled(q.tx)
    ensures Assemble(c, q, pubKey).Ok? <==>
              && KeyError(q, pubKey).None? && ToMetadata(q).Ok?
              && forall i :: 0 <= i < |q.tx.core.inputs| ==> Answered(c, q, i)
  {
    hide Finish, SighashOf, Digests, CollectSigs, ToMetadata;
    DigestsExist(c.sha, q.tx, |q.tx.core.inputs|);
    var ds := Digests(c.sha, q.tx, |q.tx.core.inputs|).value;
    CollectedInOrder(q.sign, ds);
    if |pubKey| == PK_LEN && CollectSigs(q.sign, ds).Some? {
      var sigs := CollectSigs(q.sign, ds).value;
      FinishedIff(c, q, sigs, pubKey);
      forall i | 0 <= i < |sigs| ensures Answered(c, q, i) <==> |sigs[i]| == SIG_LEN {
        assert q.sign(i, ds[i]) == Some(sigs[i]);
      }
    } else if CollectSigs(q.sign, ds).None? {
      var i :| 0 <= i < |ds| && q.sign(i, ds[i]).None?;
      assert !Answered(c, q, i);
    }
  }

  /** Exactly which calls reach the commit: the checks pass, the key is there, every
      input gets its signature and the stored totals make sense.  Nothing else stops
      them, neither a sighash, nor the serializer, nor the comparison of ids. */
  lemma PreparedIff(c: Context, q: Request, source: Option<Record>, other: Option<Record>)
    ensures Prepare(c, q, source, other).Ok? <==>
              && Checks(c, q, source, other).None? && Settled(q.tx)
              && q.seed.Some? && |q.seed.value| == 64 && q.starts && |source.value.publicKey| == 32 && ToMetadata(q).Ok?
              && forall i :: 0 <= i < |q.tx.core.inputs| ==> Answered(c, q, i)
  {
    hide Checks, Assemble, ToMetadata, Answered, Settled;
    ChecksParts(c, q, source, other);
    if Checks(c, q, source, other).None? {
      ChecksSettle(c, q, source);
      AssembledIff(c, q, source.value.publicKey);
    }
  }

  /** The signer is asked about a different digest for every input. */
  lemma DigestsDiffer(c: Context, q: Request, pubKey: seq<byte>, p: Prepared, i: uint32, j: uint32)
    requires Stands(c, q, pubKey, p) && i < |p.sigs| && j < |p.sigs| && i != j
    requires NoClash(c.sha, Message(c.sha, q.tx.(index := i)), Message(c.sha, q.tx.(index := j)))
    ensures var d, e := SighashOf(c.sha, q.tx.(index := i)), SighashOf(c.sha, q.tx.(index := j));
            d.Ok? && e.Ok? && d != e && q.sign(i, d.value) == Some(p.sigs[i]) && q.sign(j, e.value) == Some(p.sigs[j])
  {
    hide Serialize, Parser.Strip, Stripped, TxID, ToMetadata, Commit, Message;
    InputsSignDifferently(c.sha, q.tx, i, j);
  }

  /** The stored totals, exactly: without details of its own a call is accepted
      whenever the totals fit, even when it pays out more than it takes in. */
  lemma DetailsAcceptedIff(q: Request)
    requires Settled(q.tx)
    ensures var totalIn, totalOut := SumSpent(q.tx.spent), SumOut(q.tx.core.outputs);
            && (ToMetadata(q).Ok? <==>
                  && totalIn <= MAX_INT64 && totalOut <= MAX_INT64
                  && (q.details.Some? ==>
                        && totalIn == totalOut + q.details.value.fee && q.details.value.fee >= 0
                        && q.details.value.amount == q.tx.core.outputs[0].amount
                        && q.details.value.destination != "" && q.details.value.destinationType != ""))
            && (ToMetadata(q).Ok? ==>
                  && ToMetadata(q).value.amount == q.tx.core.outputs[0].amount
                  && (totalIn == totalOut + ToMetadata(q).value.fee <==> totalOut <= totalIn)
                  && (totalOut > totalIn ==> q.details.None? && ToMetadata(q).value.fee == 0))
    ensures ToMetadata(q).Ok? && q.details.Some? ==> ToMetadata(q).value == q.details.value
    ensures ToMetadata(q).Ok? && q.details.None? ==>
              var first := q.tx.core.outputs[0];
              ToMetadata(q).value.destination == "script:" + Hex(first.script) && ToMetadata(q).value.destinationType == "script"
  {
    hide SumSpent, SumOut;
  }

  lemma SumOutTwo(outs: seq<TxOutput>)
    requires |outs| == 1 || |outs| == 2
    ensures SumOut(outs) == outs[0].amount + if |outs| == 2 then outs[1].amount else 0
  {
    assert |outs| == 2 ==> outs[..1] == [outs[0]];
    assert SumOut([outs[0]]) == outs[0].amount;
  }

  /** A transaction built from a plan passes the signer's comparison of its details. */
  lemma PlanAccepted(q: Request, total: int64, send: int64, rate: int64, script: Script, change: Script)
    requires Settled(q.tx) && |change| == 34 && SumSpent(q.tx.spent) == total
    requires Fees.PlanFee(total, send, rate, |q.tx.core.inputs|, script).Ok?
    requires var plan := Fees.PlanFee(total, send, rate, |q.tx.core.inputs|, script).value;
             && q.tx.core.outputs == Fees.PlanOutputs(plan, send, script, change)
             && q.details.Some? && q.details.value.amount == send && q.details.value.fee == plan.fee
             && q.details.value.destination != "" && q.details.value.destinationType != ""
    ensures ToMetadata(q) == Ok(q.details.value)
  {
    hide Fees.PlanFee, ToMetadata, SumSpent, SumOut;
    Fees.PlanSound(total, send, rate, |q.tx.core.inputs|, script, change);
    SumOutTwo(q.tx.core.outputs);
    DetailsAcceptedIff(q);
  }

  /** Sweeping an address is accepted too. */
  lemma WithdrawAccepted(q: Request, total: int64, rate: int64, script: Script)
    requires Settled(q.tx) && SumSpent(q.tx.spent) == total
    requires Fees.PlanWithdrawAll(total, rate, |q.tx.core.inputs|, script).Ok?
    requires var plan := Fees.PlanWithdrawAll(total, rate, |q.tx.core.inputs|, script).value;
             && q.tx.core.outputs == Fees.OneOutput(plan.send, script)
             && q.details.Some? && q.details.value.amount == plan.send && q.details.value.fee == plan.fee
             && q.details.value.destination != "" && q.details.value.destinationType != ""
    ensures ToMetadata(q) == Ok(q.details.value)
  {
    hide Fees.PlanWithdrawAll, ToMetadata, SumSpent, SumOut;
    Fees.WithdrawTotals(total, rate, |q.tx.core.inputs|, script);
    SumOutTwo(q.tx.core.outputs);
    DetailsAcceptedIff(q);
  }

  /** The outpoints that recovery locks name exactly the prevouts being signed and what
      they are worth, and distinct prevouts give distinct outpoints. */
  lemma OutpointsNamePrevouts(p: SpendParams)
    ensures forall i :: 0 <= i < |p.core.inputs| ==>
              WireOrder(Outpoints(p)[i].txid) == Some(p.core.inputs[i].txid) && Outpoints(p)[i].vout == p.core.inputs[i].vout
    ensures |p.spent| == |p.core.inputs| ==> forall i :: 0 <= i < |p.spent| ==> Outpoints(p)[i].amount == p.spent[i].amount
    ensures (forall i, j :: 0 <= i < j < |p.core.inputs| ==> !SamePrevout(p.core.inputs[i], p.core.inputs[j])) ==> NoRepeats(Outpoints(p))
  {
    hide Display, WireOrder;
    forall i | 0 <= i < |p.core.inputs| ensures WireOrder(Outpoints(p)[i].txid) == Some(p.core.inputs[i].txid) {
      WireOrderOfDisplay(p.core.inputs[i].txid);
    }
  }
}
