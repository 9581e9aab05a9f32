/** signer/slhdsa.go: liboqs draws its random bytes through one process-wide slot, which
    deterministic key generation redirects for a while under rngMu.  Any number of
    threads call NewSigner, Sign and NewSignerFromSeed in any order. */
module Rng {
  import opened Common

  const SEED_SIZE: nat := 48

  /** The variables that NewSignerFromSeed's callback closes over. */
  datatype Callback = Callback(seed: seq<byte>, called: bool, failed: bool)

  function Zeros(n: nat): seq<byte> { seq(n, i => 0) }

  /** One invocation for `n` bytes into a buffer of `len`: the variables afterwards and
      what the buffer holds. */
  function Answer(cb: Callback, n: int, len: nat): (Callback, seq<byte>) {
    if cb.called then (cb.(failed := true), Zeros(len))
    else if n != SEED_SIZE || len != SEED_SIZE then (cb.(called := true, failed := true), Zeros(len))
    else (cb.(called := true), cb.seed)
  }

  datatype SeedError = InstallFailed | InitFailed | GenerateFailed | UnexpectedDraws | NeverCalled

  /** Public key from the bytes that key generation drew. */
  type KeyGen = seq<seq<byte>> -> seq<byte>

  /** The checks after GenerateKeyPair. */
  function Judge(cb: Callback, generated: bool, key: seq<byte>): Result<seq<byte>, SeedError> {
    if !generated then Err(GenerateFailed)
    else if cb.failed then Err(UnexpectedDraws)
    else if !cb.called then Err(NeverCalled)
    else Ok(key)
  }

  // ------------------------------------------------------ the callback as an object

  class Closure {
    const seed: seq<byte>
    var called: bool
    var failed: bool

    function State(): Callback
      reads this
    {
      Callback(seed, called, failed)
    }

    constructor (seed: seq<byte>)
      ensures State() == Callback(seed, false, false)
    {
      this.seed := seed;
      called, failed := false, false;
    }

    /** Fills the buffer in place. */
    method Invoke(buf: array<byte>, n: int)
      requires |seed| == SEED_SIZE
      modifies this, buf
      ensures (State(), buf[..]) == Answer(old(State()), n, buf.Length)
    {
      var bad := called || n != SEED_SIZE || buf.Length != SEED_SIZE;
      called := true;
      if bad {
        failed := true;
        for i := 0 to buf.Length
          invariant called && failed
          invariant forall k :: 0 <= k < i ==> buf[k] == 0
        {
          buf[i] := 0;
        }
        assert buf[..] == Zeros(buf.Length);
      } else {
        for i := 0 to buf.Length
          invariant called && failed == old(failed)
          invariant forall k :: 0 <= k < i ==> buf[k] == seed[k]
        {
          buf[i] := seed[i];
        }
        assert buf[..] == seed;
      }
    }
  }

  // ------------------------------------------------------------ threads and the mutex

  datatype Source = System | Custom(owner: nat)

  datatype Draw = Draw(source: Source, bytes: seq<byte>)

  datatype Call = NewSigner | Sign | FromSeed(seed: seq<byte>)

  datatype Thread =
    | Idle
    | Waiting(call: Call)
    | Drawing(call: Call, draws: seq<Draw>)
    | Entered(seed: seq<byte>)
    | Installed(cb: Callback, draws: seq<Draw>)
    | Leaving(seed: seq<byte>, draws: seq<Draw>, result: Result<seq<byte>, SeedError>)
    | Restored(seed: seq<byte>, draws: seq<Draw>, result: Result<seq<byte>, SeedError>)

  /** A finished call, with every draw that liboqs made in it. */
  datatype Finished = Finished(thread: nat, call: Call, draws: seq<Draw>, result: Result<seq<byte>, SeedError>)

  datatype Process = Process(holder: Option<nat>, slot: Source, threads: map<nat, Thread>, finished: seq<Finished>)

  const START: Process := Process(None, System, map[], [])

  function At(p: Process, t: nat): Thread { if t in p.threads then p.threads[t] else Idle }

  function Move(p: Process, t: nat, to: Thread): Process { p.(threads := p.threads[t := to]) }

  /** How many bytes liboqs asks for, what buffer it passes, and what the system's
      generator would answer, are up to the event. */
  datatype Event =
    | Begin(t: nat, call: Call)
    | Lock(t: nat)
    | DrawBytes(t: nat, n: int, len: nat, fromSystem: seq<byte>)
    | Done(t: nat, key: seq<byte>)
    | Install(t: nat, ok: bool)
    | InitFails(t: nat)
    | Generated(t: nat, ok: bool)
    | Restore(t: nat)
    | Unlock(t: nat)

  predicate Enabled(p: Process, e: Event) {
    match e
    case Begin(t, call) => At(p, t).Idle? && (call.FromSeed? ==> |call.seed| == SEED_SIZE)
    case Lock(t) => At(p, t).Waiting? && p.holder.None?
    case DrawBytes(t, _, len, bytes) => (At(p, t).Drawing? || At(p, t).Installed?) && |bytes| == len
    case Done(t, _) => At(p, t).Drawing?
    case Install(t, _) => At(p, t).Entered?
    case InitFails(t) => At(p, t).Installed? && At(p, t).draws == []
    case Generated(t, _) => At(p, t).Installed?
    case Restore(t) => At(p, t).Leaving?
    case Unlock(t) => At(p, t).Restored?
  }

  /** liboqs draws from whatever the slot holds, which may run some thread's callback. */
  function DrawNow(p: Process, t: nat, n: int, len: nat, fromSystem: seq<byte>): (Process, Draw) {
    match p.slot
    case System => (p, Draw(System, fromSystem))
    case Custom(o) =>
      if At(p, o).Installed? then
        var (cb, bytes) := Answer(At(p, o).cb, n, len);
        (Move(p, o, At(p, o).(cb := cb)), Draw(Custom(o), bytes))
      else (p, Draw(Custom(o), fromSystem))
  }

  function AddDraw(th: Thread, d: Draw): Thread {
    match th
    case Drawing(call, draws) => Drawing(call, draws + [d])
    case Installed(cb, draws) => Installed(cb, draws + [d])
    case _ => th
  }

  function Bytes(draws: seq<Draw>): seq<seq<byte>> { seq(|draws|, i requires 0 <= i < |draws| => draws[i].bytes) }

  function Step(keygen: KeyGen, p: Process, e: Event): Process
    requires Enabled(p, e)
  {
    match e
    case Begin(t, call) => Move(p, t, Waiting(call))
    case Lock(t) =>
      var call := At(p, t).call;
      Move(p, t, if call.FromSeed? then Entered(call.seed) else Drawing(call, [])).(holder := Some(t))
    case DrawBytes(t, n, len, bytes) =>
      var (q, d) := DrawNow(p, t, n, len, bytes);
      Move(q, t, AddDraw(At(q, t), d))
    case Done(t, key) =>
      var th := At(p, t);
      Move(p, t, Idle).(holder := None, finished := p.finished + [Finished(t, th.call, th.draws, Ok(key))])
    case Install(t, ok) =>
      var seed := At(p, t).seed;
      if ok then Move(p, t, Installed(Callback(seed, false, false), [])).(slot := Custom(t))
      else Move(p, t, Restored(seed, [], Err(InstallFailed)))
    case InitFails(t) => Move(p, t, Leaving(At(p, t).cb.seed, At(p, t).draws, Err(InitFailed)))
    case Generated(t, ok) =>
      var th := At(p, t);
      Move(p, t, Leaving(th.cb.seed, th.draws, Judge(th.cb, ok, keygen(Bytes(th.draws)))))
    case Restore(t) =>
      var th := At(p, t);
      Move(p, t, Restored(th.seed, th.draws, th.result)).(slot := System)
    case Unlock(t) =>
      var th := At(p, t);
      Move(p, t, Idle).(holder := None, finished := p.finished + [Finished(t, FromSeed(th.seed), th.draws, th.result)])
  }

  function Exec(keygen: KeyGen, events: seq<Event>): Process
    decreases |events|
  {
    if events == [] then START
    else
      var p := Exec(keygen, events[..|events| - 1]);
      if Enabled(p, events[|events| - 1]) then Step(keygen, p, events[|events| - 1]) else p
  }

  // -------------------------------------------------------------------- invariants

  predicate Inside(th: Thread) { !th.Idle? && !th.Waiting? }

  predicate AllSystem(draws: seq<Draw>) { forall i :: 0 <= i < |draws| ==> draws[i].source == System }

  /** The one draw of a successful derivation. */
  function OwnDraw(t: nat, seed: seq<byte>): seq<Draw> { [Draw(Custom(t), seed)] }

  /** What the callback's variables say of the draws so far. */
  predicate Tracks(t: nat, cb: Callback, draws: seq<Draw>) {
    && |cb.seed| == SEED_SIZE
    && (!cb.called <==> draws == [])
    && (!cb.called ==> !cb.failed)
    && (cb.called && !cb.failed ==> draws == OwnDraw(t, cb.seed))
    && LaterZero(draws)
  }

  /** After its first draw a derivation is given nothing but zeros. */
  predicate LaterZero(draws: seq<Draw>) { forall i :: 1 <= i < |draws| ==> draws[i].bytes == Zeros(|draws[i].bytes|) }

  predicate Proper(keygen: KeyGen, t: nat, seed: seq<byte>, draws: seq<Draw>, result: Result<seq<byte>, SeedError>) {
    && (result.Ok? ==> |seed| == SEED_SIZE && draws == OwnDraw(t, seed) && result.value == keygen([seed]))
    && LaterZero(draws) && (result == Err(NeverCalled) ==> draws == []) && (result == Err(UnexpectedDraws) ==> draws != [])
  }

  predicate ThreadGood(keygen: KeyGen, t: nat, th: Thread) {
    match th
    case Idle => true
    case Waiting(call) => call.FromSeed? ==> |call.seed| == SEED_SIZE
    case Drawing(call, draws) => !call.FromSeed? && AllSystem(draws)
    case Entered(seed) => |seed| == SEED_SIZE
    case Installed(cb, draws) => Tracks(t, cb, draws)
    case Leaving(seed, draws, result) => Proper(keygen, t, seed, draws, result)
    case Restored(seed, draws, result) => Proper(keygen, t, seed, draws, result)
  }

  predicate FinishedGood(keygen: KeyGen, f: Finished) {
    if f.call.FromSeed? then Proper(keygen, f.thread, f.call.seed, f.draws, f.result) else AllSystem(f.draws)
  }

  /** The slot that the holder's progress implies; "system" when nobody holds rngMu. */
  function SlotOf(p: Process): Source {
    if p.holder.Some? && (At(p, p.holder.value).Installed? || At(p, p.holder.value).Leaving?) then Custom(p.holder.value) else System
  }

  ghost predicate Safe(keygen: KeyGen, p: Process) {
    && p.slot == SlotOf(p)
    && (forall t: nat :: Inside(At(p, t)) <==> p.holder == Some(t))
    && (forall t: nat :: ThreadGood(keygen, t, At(p, t)))
    && (forall i :: 0 <= i < |p.finished| ==> FinishedGood(keygen, p.finished[i]))
  }

  lemma {:induction false} DrawTracked(t: nat, cb: Callback, draws: seq<Draw>, n: int, len: nat)
    requires Tracks(t, cb, draws)
    ensures var (after, bytes) := Answer(cb, n, len); Tracks(t, after, draws + [Draw(Custom(t), bytes)])
  {
  }

  lemma {:induction false} SystemGrows(draws: seq<Draw>, bytes: seq<byte>)
    requires AllSystem(draws)
    ensures AllSystem(draws + [Draw(System, bytes)])
  {
  }

  lemma {:induction false} NoDraws()
    ensures AllSystem([])
  {
  }

  lemma {:induction false} FreshTracks(t: nat, seed: seq<byte>)
    requires |seed| == SEED_SIZE
    ensures Tracks(t, Callback(seed, false, false), [])
  {
  }

  lemma {:induction false} JudgeProper(keygen: KeyGen, t: nat, cb: Callback, draws: seq<Draw>, ok: bool)
    requires Tracks(t, cb, draws)
    ensures Proper(keygen, t, cb.seed, draws, Judge(cb, ok, keygen(Bytes(draws))))
  {
    if cb.called && !cb.failed {
      assert Bytes(draws) == [cb.seed];
    }
  }

  /** A step that moves one thread between phases of the protocol. */
  lemma {:induction false} MoveSafe(keygen: KeyGen, p: Process, q: Process, t: nat)
    requires Safe(keygen, p) && q.threads == p.threads[t := At(q, t)]
    requires || p.holder == Some(t)
             || (p.holder.None? && (q.holder == None || q.holder == Some(t)))
             || (!Inside(At(q, t)) && q.holder == p.holder)
    requires p.holder == Some(t) ==> q.holder == None || q.holder == Some(t)
    requires Inside(At(q, t)) <==> q.holder == Some(t)
    requires q.slot == SlotOf(q) && ThreadGood(keygen, t, At(q, t))
    requires forall i :: 0 <= i < |q.finished| ==> FinishedGood(keygen, q.finished[i])
    ensures Safe(keygen, q)
  {
    hide ThreadGood, FinishedGood, SlotOf, Inside;
    forall u: nat ensures (Inside(At(q, u)) <==> q.holder == Some(u)) && ThreadGood(keygen, u, At(q, u)) {
      if u != t { assert At(q, u) == At(p, u); }
    }
  }

  lemma {:induction false} StepSafe(keygen: KeyGen, p: Process, e: Event)
    requires Safe(keygen, p) && Enabled(p, e)
    ensures Safe(keygen, Step(keygen, p, e))
  {
    hide Answer, Judge, Tracks, AllSystem, Bytes;
    var t := e.t;
    var th := At(p, t);
    var q := Step(keygen, p, e);
    assert ThreadGood(keygen, t, th) && (Inside(th) <==> p.holder == Some(t));
    match e {
      case Begin(_, call) =>
      case Lock(_) => assert AllSystem([]) by { NoDraws(); }
      case DrawBytes(_, n, len, bytes) =>
        if th.Drawing? { SystemGrows(th.draws, bytes); } else { DrawTracked(t, th.cb, th.draws, n, len); }
      case Done(_, key) =>
      case Install(_, ok) => FreshTracks(t, th.seed);
      case InitFails(_) =>
      case Generated(_, ok) => JudgeProper(keygen, t, th.cb, th.draws, ok);
      case Restore(_) =>
      case Unlock(_) =>
    }
    MoveSafe(keygen, p, q, t);
  }

  /** In every run: the slot is "system" whenever rngMu is free, Sign and NewSigner have
      drawn from "system" alone, and every derivation that succeeded made one draw,
      from its own callback, of exactly its own seed, and so has the key of its seed. */
  lemma {:induction false} RunSafe(keygen: KeyGen, events: seq<Event>)
    ensures var p := Exec(keygen, events);
            && Safe(keygen, p)
            && (p.holder.None? ==> p.slot == System)
            && (forall t: nat :: At(p, t).Drawing? ==> p.slot == System && AllSystem(At(p, t).draws))
            && (forall i :: 0 <= i < |p.finished| ==> FinishedGood(keygen, p.finished[i]))
    decreases |events|
  {
    hide Step, Enabled, FinishedGood;
    if events != [] {
      var p := Exec(keygen, events[..|events| - 1]);
      RunSafe(keygen, events[..|events| - 1]);
      if Enabled(p, events[|events| - 1]) { StepSafe(keygen, p, events[|events| - 1]); }
    }
  }

  /** One seed has one key, whatever else ran meanwhile, in this run or another. */
  lemma {:induction false} OneKeyPerSeed(keygen: KeyGen, a: seq<Event>, b: seq<Event>, i: nat, j: nat)
    requires i < |Exec(keygen, a).finished| && j < |Exec(keygen, b).finished|
    requires var f, g := Exec(keygen, a).finished[i], Exec(keygen, b).finished[j];
             f.call.FromSeed? && f.call == g.call && f.result.Ok? && g.result.Ok?
    ensures Exec(keygen, a).finished[i].result == Exec(keygen, b).finished[j].result
  {
    hide Exec, Safe;
    RunSafe(keygen, a);
    RunSafe(keygen, b);
    assert FinishedGood(keygen, Exec(keygen, a).finished[i]) && FinishedGood(keygen, Exec(keygen, b).finished[j]);
  }

  /** A derivation succeeds exactly when liboqs reports a key pair after one proper draw,
      and every failure of the library is reported as such. */
  lemma {:induction false} ResultIs(keygen: KeyGen, p: Process, e: Event)
    requires Enabled(p, e)
    ensures var q := Step(keygen, p, e);
            && (e.Generated? ==>
                  var th := At(p, e.t);
                  && At(q, e.t).Leaving?
                  && (At(q, e.t).result.Ok? <==> e.ok && th.cb.called && !th.cb.failed)
                  && (At(q, e.t).result == Err(GenerateFailed) <==> !e.ok))
            && (e.InitFails? ==> At(q, e.t).Leaving? && At(q, e.t).result == Err(InitFailed))
            && (e.Install? && !e.ok ==> At(q, e.t).Restored? && At(q, e.t).result == Err(InstallFailed) && q.slot == p.slot)
  {
  }

  /** A derivation that is left alone succeeds, with the key of its seed, and gives the
      slot and rngMu back. */
  lemma {:induction false} AloneSucceeds(keygen: KeyGen, t: nat, seed: seq<byte>, fromSystem: seq<byte>)
    requires |seed| == 48 == |fromSystem|
    ensures Exec(keygen, Derivation(t, seed, fromSystem)) ==
            Process(None, System, map[t := Idle], [Finished(t, FromSeed(seed), [Draw(Custom(t), seed)], Ok(keygen([seed])))])
  {
    var es := Derivation(t, seed, fromSystem);
    AloneDraws(keygen, t, seed, fromSystem);
    hide Exec;
    assert Bytes(OwnDraw(t, seed)) == [seed];
    Next(keygen, es, 4, Process(Some(t), Custom(t), map[t := Installed(Callback(seed, true, false), OwnDraw(t, seed))], []));
    Next(keygen, es, 5, Process(Some(t), Custom(t), map[t := Leaving(seed, OwnDraw(t, seed), Ok(keygen([seed])))], []));
    Next(keygen, es, 6, Process(Some(t), System, map[t := Restored(seed, OwnDraw(t, seed), Ok(keygen([seed])))], []));
    assert es[..7] == es;
  }

  lemma {:induction false} AloneDraws(keygen: KeyGen, t: nat, seed: seq<byte>, fromSystem: seq<byte>)
    requires |seed| == 48 == |fromSystem|
    ensures Exec(keygen, Derivation(t, seed, fromSystem)[..4]) ==
            Process(Some(t), Custom(t), map[t := Installed(Callback(seed, true, false), OwnDraw(t, seed))], [])
  {
    var es := Derivation(t, seed, fromSystem);
    assert Exec(keygen, es[..0]) == START;
    hide Exec;
    Next(keygen, es, 0, START);
    Next(keygen, es, 1, Process(None, System, map[t := Waiting(FromSeed(seed))], []));
    Next(keygen, es, 2, Process(Some(t), System, map[t := Entered(seed)], []));
    DrawsOwn(keygen, t, seed, fromSystem);
    Next(keygen, es, 3, Process(Some(t), Custom(t), map[t := Installed(Callback(seed, false, false), [])], []));
  }

  lemma {:induction false} DrawsOwn(keygen: KeyGen, t: nat, seed: seq<byte>, fromSystem: seq<byte>)
    requires |seed| == 48 == |fromSystem|
    ensures var cb := Callback(seed, false, false);
            var p := Process(Some(t), Custom(t), map[t := Installed(cb, [])], []);
            var e := DrawBytes(t, 48, 48, fromSystem);
            Enabled(p, e) && Step(keygen, p, e) == p.(threads := map[t := Installed(cb.(called := true), OwnDraw(t, seed))])
  {
    assert [] + [Draw(Custom(t), seed)] == OwnDraw(t, seed);
  }

  function Derivation(t: nat, seed: seq<byte>, fromSystem: seq<byte>): seq<Event> {
    [Begin(t, FromSeed(seed)), Lock(t), Install(t, true), DrawBytes(t, 48, 48, fromSystem), Generated(t, true), Restore(t), Unlock(t)]
  }

  lemma {:induction false} Next(keygen: KeyGen, es: seq<Event>, n: nat, p: Process)
    requires n < |es| && Exec(keygen, es[..n]) == p && Enabled(p, es[n])
    ensures Exec(keygen, es[..n + 1]) == Step(keygen, p, es[n])
  {
    hide Step, Enabled;
    assert es[..n + 1][..n] == es[..n] && es[..n + 1][n] == es[n];
  }
}
