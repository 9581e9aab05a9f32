/** Recoveries of one address in an interleaved run: what the node must have shown
    between two of them. */
module RecoveryRuns {
  import opened Common
  import opened Keystore
  import opened Lifecycle
  import opened Signing
  import opened Interleaving
  import Recovery

  /** The source of the release is locked, by exactly the outpoints it signed. */
  predicate LockedBy(s: Store, r: Release) {
    Lookup(s, r.q.from).Some? && Lookup(s, r.q.from).value.recoveryPending == Outpoints(r.q.tx) != []
  }

  /** An observation of the source that finds none of those outpoints unspent. */
  predicate Frees(y: System, e: Event, r: Release) {
    && LockedBy(y.store, r)
    && e.Other? && e.op.ObserveOp? && e.op.addr == r.q.from && !Meet(Outpoints(r.q.tx), e.op.current)
  }

  /** Event `n` frees what release `i` locked, before release `j`. */
  predicate FreedAt(c: Context, events: seq<Event>, i: nat, j: nat, n: nat)
    requires n < |events|
  {
    var y := Exec(c, events[..n]);
    i < |y.released| <= j && Frees(y, events[n], y.released[i])
  }

  predicate FreedBefore(c: Context, events: seq<Event>, i: nat, j: nat) {
    exists n :: 0 <= n < |events| && FreedAt(c, events, i, j, n)
  }

  predicate Again(a: Release, b: Release) { a.q.recovery && b.q.recovery && a.q.from == b.q.from }

  // ------------------------------------------------------------------- the run so far

  lemma ConcludeGrows(c: Context, y: System, j: Job)
    requires j.ChangeRead?
    ensures var (z, r) := Conclude(c, y, j);
            z.released == if r.Ok? then y.released + [Release(j.q, r.value)] else y.released
  {
    hide Prepare, Apply;
  }

  lemma StepGrows(c: Context, y: System, e: Event)
    requires Enabled(y, e)
    ensures y.released <= Step(c, y, e).released && |Step(c, y, e).released| <= |y.released| + 1
    ensures !e.Commit? ==> Step(c, y, e).released == y.released
  {
    hide Conclude, Apply, Lookup;
    if e.Commit? { ConcludeGrows(c, y, y.job.value); }
  }

  lemma {:induction false} Grows(c: Context, events: seq<Event>, n: nat)
    requires n <= |events|
    ensures Exec(c, events[..n]).released <= Exec(c, events).released
    decreases |events|
  {
    hide Step;
    if n == |events| {
      assert events[..n] == events;
    } else {
      var init, e := events[..|events| - 1], events[|events| - 1];
      assert init[..n] == events[..n];
      Grows(c, init, n);
      if Enabled(Exec(c, init), e) { StepGrows(c, Exec(c, init), e); }
    }
  }

  lemma {:induction false} FreedStays(c: Context, events: seq<Event>, i: nat, j: nat, m: nat)
    requires events != [] && FreedBefore(c, events[..|events| - 1], i, j) && j <= m
    ensures FreedBefore(c, events, i, m)
  {
    hide Exec, Frees;
    var init := events[..|events| - 1];
    var n :| 0 <= n < |init| && FreedAt(c, init, i, j, n);
    assert init[..n] == events[..n] && init[n] == events[n];
    assert FreedAt(c, events, i, m, n);
  }

  // ------------------------------------------------------------------------ one step

  lemma ObserveLock(s: Store, op: Op, k: nat, derive: Deriver)
    requires op.ObserveOp? && k in s.addresses
    ensures k in Apply(s, op, derive).store.addresses
    ensures var after := Apply(s, op, derive).store.addresses[k].recoveryPending;
            after == s.addresses[k].recoveryPending
            || (s.addresses[k].address == op.addr && !Meet(s.addresses[k].recoveryPending, op.current))
  {
    hide FindFrom, Find, Apply, Replaceable;
    SimpleResult(s, op, derive);
  }

  lemma OtherLock(c: Context, y: System, op: Op, r: Release)
    requires Inv(y.store, c.derive) && Enabled(y, Other(op)) && LockedBy(y.store, r)
    ensures LockedBy(Apply(y.store, op, c.derive).store, r) || Frees(y, Other(op), r)
  {
    hide FindFrom, Find, Inv, StoreForward, Apply, Meet, Outpoints, RealBlob;
    var s, t := y.store, Apply(y.store, op, c.derive).store;
    assert RealBlob(op);
    StepKeeps(s, op, c.derive);
    FindStays(s, t, r.q.from, c.derive);
    var k := Find(s, r.q.from).value;
    if op.ObserveOp? {
      ObserveLock(s, op, k, c.derive);
    } else {
      Recovery.OtherStepsKeepLocks(s, op, k, c.derive);
    }
  }

  lemma CommitLock(c: Context, s: Store, op: Op, r: Release)
    requires Inv(s, c.derive) && (op.SpendOp? || op.RecoverOp?) && LockedBy(s, r)
    ensures LockedBy(Apply(s, op, c.derive).store, r)
    ensures op.RecoverOp? && op.from == r.q.from ==> Apply(s, op, c.derive).error.Some?
  {
    hide FindFrom, Find, Inv, StoreForward, Outpoints, CommitSpend, CommitRecovery, Authorizes, ChangeError, AddBroadcast, Reserve;
    var t := Apply(s, op, c.derive).store;
    StepKeeps(s, op, c.derive);
    FindStays(s, t, r.q.from, c.derive);
    Recovery.CommitsKeepLocks(s, op, Find(s, r.q.from).value, c.derive);
    if op.RecoverOp? { RecoverResult(s, op.from, op.change, op.txid, op.outpoints, op.pending); }
  }

  lemma NewLock(c: Context, s: Store, op: Op, q: Request, p: Prepared)
    requires Inv(s, c.derive) && op.RecoverOp? && op.from == q.from && op.outpoints == Outpoints(q.tx) != []
    requires Apply(s, op, c.derive).error.None?
    ensures LockedBy(Apply(s, op, c.derive).store, Release(q, p))
  {
    hide FindFrom, Find, Inv, StoreForward, Outpoints, CommitRecovery, Authorizes, ChangeError, AddBroadcast, Reserve, Remaining;
    RecoverResult(s, op.from, op.change, op.txid, op.outpoints, op.pending);
    StepKeeps(s, op, c.derive);
    FindStays(s, Apply(s, op, c.derive).store, q.from, c.derive);
  }

  /** What a released call committed. */
  lemma ReleasedOp(c: Context, y: System, j: Job)
    requires j.ChangeRead?
    ensures var (z, r) := Conclude(c, y, j);
            if r.Err? then z.store == y.store
            else
              && (if j.q.recovery then r.value.op.RecoverOp? && r.value.op.outpoints == Outpoints(j.q.tx) != [] else r.value.op.SpendOp?)
              && r.value.op.from == j.q.from
              && z.store == Apply(y.store, r.value.op, c.derive).store && Apply(y.store, r.value.op, c.derive).error.None?
  {
    hide Prepare, Apply, ToMetadata, Stands;
    var (z, r) := Conclude(c, y, j);
    if r.Err? {
      ErrorsReleaseNothing(c, y, j);
    } else {
      PreparedStands(c, j.q, j.source, j.other);
      StandsParts(c, j.q, j.source.value.publicKey, r.value);
    }
  }

  lemma ConcludeLock(c: Context, y: System, j: Job, r: Release)
    requires Inv(y.store, c.derive) && j.ChangeRead? && LockedBy(y.store, r)
    ensures LockedBy(Conclude(c, y, j).0.store, r)
    ensures Conclude(c, y, j).1.Ok? ==> !(j.q.recovery && j.q.from == r.q.from)
  {
    hide Conclude, Apply, Inv, LockedBy, Outpoints;
    ReleasedOp(c, y, j);
    var (z, o) := Conclude(c, y, j);
    if o.Ok? { CommitLock(c, y.store, o.value.op, r); }
  }

  lemma ConcludeNew(c: Context, y: System, j: Job)
    requires Inv(y.store, c.derive) && j.ChangeRead? && j.q.recovery && Conclude(c, y, j).1.Ok?
    ensures LockedBy(Conclude(c, y, j).0.store, Release(j.q, Conclude(c, y, j).1.value))
  {
    hide Conclude, Apply, Inv, LockedBy, Outpoints;
    ReleasedOp(c, y, j);
    var (z, o) := Conclude(c, y, j);
    NewLock(c, y.store, o.value.op, j.q, o.value);
  }

  // ------------------------------------------------------------------------ every run

  /** A released recovery's outpoints stay locked until an observation frees them. */
  lemma {:induction false} LockedUntilFreed(c: Context, events: seq<Event>, i: nat)
    requires i < |Exec(c, events).released| && Exec(c, events).released[i].q.recovery
    ensures var y := Exec(c, events);
            LockedBy(y.store, y.released[i]) || FreedBefore(c, events, i, |y.released|)
    decreases |events|
  {
    hide Conclude, Apply, Inv, LockedBy, Safe, Lookup;
    var init, e := events[..|events| - 1], events[|events| - 1];
    var y, z := Exec(c, init), Exec(c, events);
    RunSafe(c, init);
    SafeParts(c, y);
    if Enabled(y, e) { StepGrows(c, y, e); }
    if i < |y.released| {
      LockedUntilFreed(c, init, i);
      if FreedBefore(c, init, i, |y.released|) {
        FreedStays(c, events, i, |y.released|, |z.released|);
      } else if Enabled(y, e) {
        match e
        case Commit => ConcludeLock(c, y, y.job.value, y.released[i]);
        case Other(op) =>
          OtherLock(c, y, op, y.released[i]);
          if !LockedBy(z.store, z.released[i]) { assert FreedAt(c, events, i, |z.released|, |init|); }
        case _ =>
      }
    } else {
      ConcludeGrows(c, y, y.job.value);
      ConcludeNew(c, y, y.job.value);
    }
  }

  /** Between any two released recoveries of one source, some observation of it found
      every outpoint that the earlier one signed spent: whatever they sign, they never
      compete for an outpoint the node still reports unspent. */
  lemma {:induction false} RecoveriesApart(c: Context, events: seq<Event>, i: nat, j: nat)
    requires i < j < |Exec(c, events).released|
    requires Again(Exec(c, events).released[i], Exec(c, events).released[j])
    ensures FreedBefore(c, events, i, j)
    decreases |events|
  {
    hide Conclude, Apply, Inv, LockedBy, Safe, Lookup, FreedBefore;
    var init, e := events[..|events| - 1], events[|events| - 1];
    var y := Exec(c, init);
    if Enabled(y, e) { StepGrows(c, y, e); }
    if j < |y.released| {
      RecoveriesApart(c, init, i, j);
      FreedStays(c, events, i, j, j);
    } else {
      RunSafe(c, init);
      SafeParts(c, y);
      LockedUntilFreed(c, init, i);
      ConcludeGrows(c, y, y.job.value);
      if LockedBy(y.store, y.released[i]) {
        ConcludeLock(c, y, y.job.value, y.released[i]);
        assert false;
      }
      FreedStays(c, events, i, j, j);
    }
  }
}
