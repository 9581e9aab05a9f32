/** Which history entries and pending broadcasts the database takes, what of them it
    keeps, and when the calls that take no broadcast succeed. */
module Records {
  import opened Common
  import opened Keystore
  import opened Lifecycle
  import opened Funding

  // ---------------------------------------------------------------------- history

  predicate Complete(t: Transfer) {
    && t.txid != "" && t.destination != "" && t.amount > 0 && t.recordedAt != 0
    && (t.direction == "incoming" || (t.direction == "outgoing" && t.source != "" && t.destinationType != "" && t.fee >= 0))
  }

  lemma RecordedIff(t: Transfer)
    ensures HistoryKey(t).Some? <==> Complete(t)
  {
  }

  /** Outgoing entries are told apart by their ids, and never taken for incoming ones. */
  lemma OutgoingKeys(a: Transfer, b: Transfer)
    requires Complete(a) && Complete(b) && a.direction == "outgoing"
    ensures HistoryKey(a) == HistoryKey(b) <==> b.direction == "outgoing" && a.txid == b.txid
  {
    assert ("out:" + a.txid)[0] == 'o' && ("out:" + a.txid)[4..] == a.txid && ("out:" + b.txid)[4..] == b.txid;
    assert ("in:" + b.txid + ":" + b.destination)[0] == 'i';
  }

  /** Incoming entries are told apart by id and address. */
  lemma IncomingKeys(a: Transfer, b: Transfer)
    requires Complete(a) && Complete(b) && a.direction == "incoming"
    requires NoColon(a.txid) && NoColon(a.destination)
    ensures HistoryKey(a) == HistoryKey(b) <==> b.direction == "incoming" && a.txid == b.txid && a.destination == b.destination
  {
    hide NoColon;
    if HistoryKey(a) == HistoryKey(b) { IncomingKeyNames(b, a.txid, a.destination); }
  }

  /** An outgoing transaction is recorded exactly when it is complete and nothing else
      is recorded under its id; then it is there, and so is everything else. */
  lemma OutgoingStored(s: Store, t: Transfer)
    requires Keyed(s) && t.direction == "outgoing"
    ensures PutHistory(s, t).error.None? <==>
              Complete(t) && forall k :: k in s.history && s.history[k].direction == "outgoing" && s.history[k].txid == t.txid ==> s.history[k] == t
    ensures PutHistory(s, t).error.None? ==>
              Stored(PutHistory(s, t).store, t) && Keyed(PutHistory(s, t).store) && HistoryKept(s, PutHistory(s, t).store)
  {
    hide HistoryKey;
    RecordedIff(t);
    forall k | k in s.history && Complete(t)
      ensures HistoryKey(t) == Some(k) <==> s.history[k].direction == "outgoing" && s.history[k].txid == t.txid
    {
      RecordedIff(s.history[k]);
      OutgoingKeys(t, s.history[k]);
    }
  }

  /** Two outgoing transactions with different ids are both recorded. */
  lemma BothStored(s: Store, a: Transfer, b: Transfer)
    requires Keyed(s) && Complete(a) && Complete(b) && a.direction == "outgoing" == b.direction && a.txid != b.txid
    requires forall k :: k in s.history && s.history[k].direction == "outgoing" ==> s.history[k].txid != a.txid && s.history[k].txid != b.txid
    ensures var first := PutHistory(s, a);
            var second := PutHistory(first.store, b);
            first.error.None? && second.error.None? && Stored(second.store, a) && Stored(second.store, b)
  {
    hide HistoryKey, Complete;
    OutgoingStored(s, a);
    var t := PutHistory(s, a).store;
    forall k | k in t.history && t.history[k].direction == "outgoing" ensures t.history[k].txid != b.txid {
      assert k in s.history || t.history[k] == a;
    }
    OutgoingStored(t, b);
  }

  /** What is recorded stays, over any run. */
  lemma StoredStays(s: Store, t: Transfer, ops: seq<Op>, derive: Deriver)
    requires Inv(s, derive) && RealBlobs(ops) && Stored(s, t)
    ensures Stored(Run(s, ops, derive), t)
  {
    hide Inv, Run, HistoryKey;
    RunForward(s, ops, derive);
  }

  // ---------------------------------------------------------- funding with history

  /** Record `i` is to the address and contradicts nothing stored or given before it. */
  predicate Fits(s: Store, addr: string, ts: seq<Transfer>, i: nat)
    requires i < |ts|
  {
    && ToAddr(ts[i], addr) && Complete(ts[i])
    && (HistoryKey(ts[i]).Some? && HistoryKey(ts[i]).value in s.history ==> s.history[HistoryKey(ts[i]).value] == ts[i])
    && forall j :: 0 <= j < i && HistoryKey(ts[j]) == HistoryKey(ts[i]) ==> ts[j] == ts[i]
  }

  lemma {:induction false} FitsLater(s: Store, addr: string, ts: seq<Transfer>, i: nat)
    requires i + 1 < |ts| && ToAddr(ts[0], addr) && PutHistory(s, ts[0]).error.None?
    ensures Fits(PutHistory(s, ts[0]).store, addr, ts[1..], i) <==> Fits(s, addr, ts, i + 1)
  {
    hide HistoryKey, ToAddr;
    var rest := ts[1..];
    RecordedIff(ts[0]);
    RecordedIff(ts[i + 1]);
    hide Complete;
    assert rest[i] == ts[i + 1];
    assert forall j :: 0 <= j < i ==> rest[j] == ts[j + 1];
    if Fits(PutHistory(s, ts[0]).store, addr, rest, i) {
      forall j | 0 <= j < i + 1 && HistoryKey(ts[j]) == HistoryKey(ts[i + 1]) ensures ts[j] == ts[i + 1] {
        if j > 0 { assert ts[j] == rest[j - 1]; }
      }
    }
  }

  lemma {:induction false} LoopIff(s: Store, addr: string, ts: seq<Transfer>, total: int64)
    ensures PutIncoming(s, addr, ts, total).0.error.None? <==> forall i :: 0 <= i < |ts| ==> Fits(s, addr, ts, i)
    ensures PutIncoming(s, addr, ts, total).0.error.None? ==> PutIncoming(s, addr, ts, total).1 == Wrap64(total + Sum(ts))
    decreases |ts|
  {
    hide Fits, Wrap64, HistoryKey;
    if ts == [] {
      WrapExact(total);
    } else {
      HeadFits(s, addr, ts);
      WrapSum(total + ts[0].amount, Sum(ts[1..]));
      if Fits(s, addr, ts, 0) {
        var next := PutHistory(s, ts[0]).store;
        LoopIff(next, addr, ts[1..], Wrap64(total + ts[0].amount));
        forall i | 0 <= i < |ts| - 1 ensures Fits(next, addr, ts[1..], i) <==> Fits(s, addr, ts, i + 1) {
          FitsLater(s, addr, ts, i);
        }
        if forall i :: 0 <= i < |ts| - 1 ==> Fits(next, addr, ts[1..], i) {
          forall i | 0 <= i < |ts| ensures Fits(s, addr, ts, i) {
            if i > 0 { assert Fits(next, addr, ts[1..], i - 1); }
          }
        }
        if forall i :: 0 <= i < |ts| ==> Fits(s, addr, ts, i) {
          forall i | 0 <= i < |ts| - 1 ensures Fits(next, addr, ts[1..], i) { assert Fits(s, addr, ts, i + 1); }
        }
      }
    }
  }

  lemma HeadFits(s: Store, addr: string, ts: seq<Transfer>)
    requires ts != []
    ensures Fits(s, addr, ts, 0) <==> ToAddr(ts[0], addr) && PutHistory(s, ts[0]).error.None?
  {
    hide HistoryKey;
    RecordedIff(ts[0]);
    hide Complete;
  }

  /** Exactly when an address is funded with history: it is FRESH, and reserved or given
      records that fit and whose wrapped sum is the balance. */
  lemma FundingAcceptedIff(s: Store, addr: string, balance: int64, incoming: seq<Transfer>)
    ensures FundAndRecord(s, addr, balance, incoming).outcome.error.None? <==>
              && Lookup(s, addr).Some? && Lookup(s, addr).value.state == Fresh
              && (|| Lookup(s, addr).value.reserved
                  || (&& incoming != [] && Wrap64(Sum(incoming)) == balance
                      && forall i :: 0 <= i < |incoming| ==> Fits(s, addr, incoming, i)))
    ensures var f := FundAndRecord(s, addr, balance, incoming);
            f.outcome.error.None? ==> f.wasReserved == Lookup(s, addr).value.reserved
  {
    hide FindFrom, Find, PutIncoming, Fits, Sum, Wrap64;
    LoopIff(s, addr, incoming, 0);
  }

  // -------------------------------------------------------------- pending broadcasts

  predicate Whole(b: Broadcast) {
    && |b.txid| == 64 && b.rawHex != "" && b.source != "" && b.amount > 0 && b.fee >= 0 && b.signedAt != 0
    && (b.kind == "spend" || b.kind == "recovery")
  }

  lemma AddedWhole(s: Store, txid: string, source: string, kind: string, pending: seq<Broadcast>)
    requires AddBroadcast(s, txid, source, kind, pending).error.None? && pending != []
    ensures Whole(pending[0]) && txid !in s.pending && AddBroadcast(s, txid, source, kind, pending).store.pending == s.pending[txid := pending[0]]
  {
  }

  lemma StepWhole(s: Store, op: Op, derive: Deriver)
    requires forall id :: id in s.pending ==> Whole(s.pending[id])
    ensures var t := Apply(s, op, derive).store; forall id :: id in t.pending ==> Whole(t.pending[id])
  {
    hide Whole, FindFrom, Find, CommitSpend, CommitRecovery, AddBroadcast, ChangeError, Reserve, Authorizes, Remaining, FundAndRecord, Observed;
    match op
    case SpendOp(from, change, txid, pending) =>
      SpendResult(s, from, change, txid, pending);
      if Apply(s, op, derive).error.None? {
        if pending != [] { AddedWhole(s, txid, from, "spend", pending); } else { AddedOne(s, txid, from, "spend", pending); }
      }
    case RecoverOp(from, change, txid, outpoints, pending) =>
      RecoverResult(s, from, change, txid, outpoints, pending);
      if Apply(s, op, derive).error.None? {
        if pending != [] { AddedWhole(s, txid, from, "recovery", pending); } else { AddedOne(s, txid, from, "recovery", pending); }
      }
    case FundHistoryOp(addr, balance, incoming) => FundingResult(s, addr, balance, incoming);
    case _ =>
  }

  /** Every stored broadcast of every reachable store is complete. */
  lemma {:induction false} BroadcastsWhole(ops: seq<Op>, derive: Deriver)
    ensures forall id :: id in Run(EMPTY, ops, derive).pending ==> Whole(Run(EMPTY, ops, derive).pending[id])
    decreases |ops|
  {
    hide Apply, Whole;
    if ops != [] {
      BroadcastsWhole(ops[..|ops| - 1], derive);
      StepWhole(Run(EMPTY, ops[..|ops| - 1], derive), ops[|ops| - 1], derive);
    }
  }

  /** A deletion removes one broadcast and touches nothing else. */
  lemma DeletionKeeps(s: Store, txid: string)
    ensures var t := DeleteBroadcast(s, txid).store;
            && DeleteBroadcast(s, txid).error.None? && t == s.(pending := t.pending)
            && forall id :: (id in t.pending <==> id in s.pending && id != txid) && (id in t.pending ==> t.pending[id] == s.pending[id])
  {
  }

  // ------------------------------------------------------------------- when they succeed

  function Elements(os: seq<Outpoint>): set<Outpoint> { set i | 0 <= i < |os| :: os[i] }

  lemma NoRepeatsLast(init: seq<Outpoint>, last: Outpoint)
    ensures NoRepeats(init + [last]) <==> NoRepeats(init) && last !in Elements(init)
  {
    var os := init + [last];
    assert forall i :: 0 <= i < |init| ==> os[i] == init[i];
    if NoRepeats(os) {
      forall i | 0 <= i < |init| ensures init[i] != last { assert os[i] != os[|init|]; }
    }
    if NoRepeats(init) && last !in Elements(init) {
      forall i | 0 <= i < |init| ensures init[i] != last { assert init[i] in Elements(init); }
    }
  }

  lemma {:induction false} NoRepeatsIff(os: seq<Outpoint>)
    ensures |Elements(os)| <= |os| && (NoRepeats(os) <==> |Elements(os)| == |os|)
  {
    if os == [] {
      assert Elements(os) == {};
    } else {
      var init, last := os[..|os| - 1], os[|os| - 1];
      assert os == init + [last];
      NoRepeatsIff(init);
      NoRepeatsLast(init, last);
      ElementsLast(init, last);
      hide NoRepeats, Elements;
    }
  }

  lemma ElementsLast(init: seq<Outpoint>, last: Outpoint)
    ensures Elements(init + [last]) == Elements(init) + {last}
  {
    var os := init + [last];
    assert os[|init|] == last;
    forall o | o in Elements(init) ensures o in Elements(os) {
      var i :| 0 <= i < |init| && init[i] == o;
      assert os[i] == o;
    }
  }

  /** Which submissions are authorized, as sets: something, without repeats, from a list
      without repeats that has it all. */
  lemma AuthorizesIff(authorized: seq<Outpoint>, submitted: seq<Outpoint>)
    ensures Authorizes(authorized, submitted) <==>
              && submitted != [] && |Elements(authorized)| == |authorized| && |Elements(submitted)| == |submitted|
              && Elements(submitted) <= Elements(authorized)
  {
    NoRepeatsIff(authorized);
    NoRepeatsIff(submitted);
    hide NoRepeats;
    if Elements(submitted) <= Elements(authorized) {
      forall i | 0 <= i < |submitted| ensures submitted[i] in authorized { assert submitted[i] in Elements(submitted); }
    }
    if forall i :: 0 <= i < |submitted| ==> submitted[i] in authorized {
      forall o | o in Elements(submitted) ensures o in Elements(authorized) {
        var k :| 0 <= k < |authorized| && authorized[k] == o;
      }
    }
  }

  predicate ChangeFree(s: Store, change: string) {
    change == "" || (Lookup(s, change).Some? && Lookup(s, change).value.state == Fresh && !Lookup(s, change).value.reserved)
  }

  /** No broadcast, or one complete new one that belongs to the commit. */
  predicate BroadcastFits(s: Store, txid: string, source: string, kind: string, pending: seq<Broadcast>) {
    || pending == []
    || (&& |pending| == 1 && pending[0].txid == txid && pending[0].source == source && pending[0].kind == kind
        && Whole(pending[0]) && txid !in s.pending)
  }

  lemma BroadcastIff(s: Store, txid: string, source: string, kind: string, pending: seq<Broadcast>)
    ensures AddBroadcast(s, txid, source, kind, pending).error.None? <==> BroadcastFits(s, txid, source, kind, pending)
  {
  }

  /** Exactly when the commits go through. */
  lemma CommitsIff(s: Store, from: string, change: string, txid: string, outpoints: seq<Outpoint>, pending: seq<Broadcast>)
    ensures var r := Lookup(s, from);
            && (CommitSpend(s, from, change, txid, pending).error.None? <==>
                  r.Some? && r.value.state == Funded && ChangeFree(s, change) && BroadcastFits(s, txid, from, "spend", pending))
            && (CommitRecovery(s, from, change, txid, outpoints, pending).error.None? <==>
                  && r.Some? && r.value.state == Spent && r.value.recoveryPending == [] && r.value.hasRecoverable
                  && Authorizes(r.value.recoverable, outpoints)
                  && ChangeFree(s, change) && BroadcastFits(s, txid, from, "recovery", pending))
  {
    hide FindFrom, Find, Authorizes, Reserve, Remaining, AddBroadcast, BroadcastFits;
    BroadcastIff(s, txid, from, "spend", pending);
    BroadcastIff(s, txid, from, "recovery", pending);
  }

  /** What the commits refuse a call for, apart from its broadcast and its change. */
  lemma CommitRefusals(s: Store, from: string, change: string, txid: string, outpoints: seq<Outpoint>, pending: seq<Broadcast>)
    ensures var r := Lookup(s, from);
            var spend, recover := CommitSpend(s, from, change, txid, pending).error, CommitRecovery(s, from, change, txid, outpoints, pending).error;
            && (r.None? ==> spend == Some(NotFound) && recover == Some(NotFound))
            && (spend == Some(NotFunded) <==> r.Some? && r.value.state != Funded)
            && (recover == Some(NotSpent) <==> r.Some? && r.value.state != Spent)
            && (recover == Some(RecoveryInProgress) <==> r.Some? && r.value.state == Spent && r.value.recoveryPending != [])
            && (recover == Some(RecoveryNotAvailable) <==>
                  r.Some? && r.value.state == Spent && r.value.recoveryPending == []
                  && (!r.value.hasRecoverable || !Authorizes(r.value.recoverable, outpoints)))
  {
    hide FindFrom, Find, Authorizes, Reserve, Remaining;
  }

  /** Funding, confirming, observing and retiring succeed exactly in the right state; a
      key is not destroyed while recovery is available or in flight. */
  lemma TransitionsIff(s: Store, addr: string, current: seq<Outpoint>, mature: bool, derive: Deriver)
    requires Inv(s, derive)
    ensures var r := Lookup(s, addr);
            && (MarkFunded(s, addr).error.None? <==> r.Some? && r.value.state == Fresh)
            && (MarkSpent(s, addr).error.None? <==> r.Some? && r.value.state == SpendPending)
            && (Observe(s, addr, current, mature).outcome.error.None? <==> r.Some? && r.value.state == Spent)
            && (Retire(s, addr).error.None? <==>
                  r.Some? && r.value.state == Spent && r.value.recoverable == [] && r.value.recoveryPending == [])
  {
    hide FindFrom, Find, Inv, Observed;
    if Find(s, addr).Some? { FindDerived(s, addr, derive); }
  }
}
