/** The engine facade: `unlock`, `execute`, `erase` and `getState` strung over the
    mediation controller, the boundary, the security controller and the teardown manager. */
module BlackoutEngine {
  import opened Common
  import opened EngineStates
  import LifecyclePhases
  import opened Mediation
  import opened ClassifiedBuffers
  import opened Boundaries
  import opened Security
  import TeardownManager

  /** The facade owns exactly the components the teardown manager works on. */
  type Engine = TeardownManager.Components

  /** The engine after `execute`, and the signature it returned or the exception it threw. */
  datatype ExecuteReply = ExecuteReply(engine: Engine, result: Result<Bytes>)

  /** What every facade operation keeps true:
      a COLD engine has no phase; the key is loaded exactly while the boundary is active;
      a buffer is held only inside an active boundary, and it points into the heap. */
  predicate Invariant(e: Engine) {
    && (e.mediator.state == Cold ==> e.mediator.phase == None)
    && (e.boundary.active <==> e.security.ephemeral.Some?)
    && (e.boundary.buffer.Some? ==> e.boundary.active)
    && TeardownManager.RefsValid(e)
  }

  /** A new engine: COLD, phase unset, boundary inactive with no buffer, no key, nothing logged. */
  function New(publicKey: PublicKey): (e: Engine)
    ensures e.mediator.state == Cold && e.mediator.phase == None && e.mediator.anomalies == []
    ensures !e.boundary.active && e.boundary.buffer == None && e.heap == []
    ensures e.security.ephemeral == None && e.security.publicKey == publicKey
    ensures Invariant(e)
  {
    TeardownManager.Components(Mediation.New(), Boundaries.New(), [], Security.New(publicKey))
  }

  /** `getState`: the mediator's current state. */
  function GetState(e: Engine): EngineState {
    e.mediator.state
  }

  /** `unlock`: request ACTIVE, request phase UNLOCK, activate the boundary, load the key.
      The last two happen even when the requests are rejected. Only a COLD engine with no
      phase becomes ACTIVE; from anywhere else the engine ends LOCKED. An unset phase becomes
      UNLOCK even when the state request was rejected; a set phase never changes. Each rejected
      request leaves one anomaly, the state request's first. */
  function Unlock(e: Engine, key: PrivateKey): (r: Engine)
    ensures r.security.ephemeral == Some(key) && r.security.publicKey == e.security.publicKey
    ensures r.boundary.active && r.boundary.buffer == e.boundary.buffer && r.heap == e.heap
    ensures r.mediator.state == (if e.mediator.state == Cold && e.mediator.phase == None then Active else Locked)
    ensures r.mediator.phase ==
              (if e.mediator.phase.None? then Some(LifecyclePhases.Unlock) else e.mediator.phase)
    ensures r.mediator.anomalies == e.mediator.anomalies
              + (if e.mediator.state == Cold then [] else [IllegalStateTransition(e.mediator.state, Active)])
              + (if e.mediator.phase.None? then []
                 else [IllegalLifecycleTransition(e.mediator.phase.value, LifecyclePhases.Unlock)])
    ensures Invariant(e) ==> Invariant(r)
  {
    var mediator := TransitionPhase(TransitionState(e.mediator, Active), LifecyclePhases.Unlock);
    e.(mediator := mediator, boundary := Activate(e.boundary), security := LoadEphemeralKey(e.security, key))
  }

  /** `execute`: request phase EXECUTE, allocate a buffer of the input's size, write the input
      into it, read it back and sign it. The outcome of the phase request is never consulted:
      whenever the boundary is active and a key is loaded the call returns the signature of the
      input, and the input is left in the newly held buffer. An inactive boundary makes the
      allocation throw; a missing key makes signing throw, wrapped as an execution failure. */
  function Execute(e: Engine, input: Bytes, signer: Signer): (r: ExecuteReply)
    ensures r.engine.mediator == TransitionPhase(e.mediator, LifecyclePhases.Execute)
    ensures r.engine.security == e.security
    ensures !e.boundary.active ==>
              r.result == Err(IllegalState) && r.engine.boundary == e.boundary && r.engine.heap == e.heap
    ensures e.boundary.active ==>
              && r.engine.boundary == e.boundary.(buffer := Some(|e.heap|))
              && r.engine.heap == e.heap + [ClassifiedBuffer(input, true)]
    ensures e.boundary.active && e.security.ephemeral.Some? ==>
              r.result == Ok(signer(e.security.ephemeral.value, input))
    ensures e.boundary.active && e.security.ephemeral.None? ==>
              r.result == Err(ExecutionFailed(IllegalState))
    ensures Invariant(e) ==> Invariant(r.engine)
  {
    var mediator := TransitionPhase(e.mediator, LifecyclePhases.Execute);
    var allocation := AllocateBuffer(e.boundary, e.heap, |input|);
    match allocation.result
    case Err(f) => ExecuteReply(e.(mediator := mediator), Err(f))
    case Ok(ref) =>
      var written := Write(allocation.heap[ref], input);
      assert written.buffer.data == input;
      var after := e.(mediator := mediator, boundary := allocation.boundary,
                      heap := allocation.heap[ref := written.buffer]);
      match written.result
      case Err(f) => ExecuteReply(after, Err(f))
      case Ok(_) =>
        match Read(after.heap[ref])
        case Err(f) => ExecuteReply(after, Err(ExecutionFailed(f)))
        case Ok(bytes) =>
          match Sign(e.security, bytes, signer)
          case Err(f) => ExecuteReply(after, Err(ExecutionFailed(f)))
          case Ok(signature) => ExecuteReply(after, Ok(signature))
  }

  /** `erase`: request phase ERASE, then tear down. Whatever the starting point, the key is
      gone, the boundary is inactive and empty, its buffer is wiped, no other buffer changes,
      and the phase is unset. The engine ends COLD unless it was COLD and accepted the ERASE
      request, which makes teardown's COLD request fail; the log gains the rejected ERASE
      request, if any, and then that failed COLD request. Under the invariant the engine
      always ends COLD. */
  function Erase(e: Engine): (r: Engine)
    requires TeardownManager.RefsValid(e)
    ensures r.security.ephemeral == None && r.security.publicKey == e.security.publicKey
    ensures !r.boundary.active && r.boundary.buffer == None && |r.heap| == |e.heap|
    ensures e.boundary.buffer.Some? ==>
              var wiped := r.heap[e.boundary.buffer.value];
              !wiped.valid && AllZero(wiped.data) && wiped.Capacity() == e.heap[e.boundary.buffer.value].Capacity()
    ensures forall i :: 0 <= i < |e.heap| && e.boundary.buffer != Some(i) ==> r.heap[i] == e.heap[i]
    ensures r.mediator.phase == None
    ensures Invariant(r)
    ensures Invariant(e) ==> r.mediator.state == Cold
    ensures var accepted := PhaseAccepted(e.mediator.phase, LifecyclePhases.Erase);
            && r.mediator.state == (if e.mediator.state == Cold && accepted then Locked else Cold)
            && r.mediator.anomalies == e.mediator.anomalies
                 + (if accepted then [] else [PhaseAnomaly(e.mediator.phase, LifecyclePhases.Erase)])
                 + (if e.mediator.state == Cold && accepted then [IllegalStateTransition(Cold, Cold)] else [])
  {
    TeardownManager.Teardown(e.(mediator := TransitionPhase(e.mediator, LifecyclePhases.Erase)))
  }

  /** Without the invariant `erase` can end LOCKED: a COLD engine whose phase is EXECUTE
      accepts the ERASE request, so teardown's COLD request is rejected. */
  lemma EraseNeedsInvariant(publicKey: PublicKey)
    ensures var e := New(publicKey).(mediator := MediationController(Cold, Some(LifecyclePhases.Execute), []));
            !Invariant(e) && Erase(e).mediator.state == Locked
  {
  }

  /** A second `erase` changes nothing but the anomaly log, which records that the lifecycle
      did not begin with UNLOCK. */
  lemma EraseIsIdempotent(e: Engine)
    requires Invariant(e)
    ensures var once := Erase(e);
            Erase(once) == once.(mediator := once.mediator.(anomalies := once.mediator.anomalies + [LifecycleMustBeginWithUnlock]))
  {
  }

  /** A call on the facade. */
  datatype Call = UnlockCall(key: PrivateKey) | ExecuteCall(input: Bytes) | EraseCall

  function Step(e: Engine, c: Call, signer: Signer): (r: Engine)
    requires Invariant(e)
    ensures Invariant(r)
  {
    match c
    case UnlockCall(key) => Unlock(e, key)
    case ExecuteCall(input) => Execute(e, input, signer).engine
    case EraseCall => Erase(e)
  }

  /** The engine after any sequence of facade calls; each keeps the invariant. */
  function Run(e: Engine, calls: seq<Call>, signer: Signer): (r: Engine)
    requires Invariant(e)
    ensures Invariant(r)
    decreases |calls|
  {
    if calls == [] then e else Run(Step(e, calls[0], signer), calls[1..], signer)
  }

  /** Whatever calls a new engine has seen, `erase` brings it back to COLD with no phase,
      an inactive empty boundary and no key. */
  lemma EraseAlwaysEndsCold(publicKey: PublicKey, calls: seq<Call>, signer: Signer)
    ensures var r := Erase(Run(New(publicKey), calls, signer));
            r.mediator.state == Cold && r.mediator.phase == None &&
            !r.boundary.active && r.boundary.buffer == None && r.security.ephemeral == None
  {
  }

  /** `unlock` on a new engine: ACTIVE, phase UNLOCK, boundary active, key loaded, nothing logged. */
  lemma UnlockFresh(publicKey: PublicKey, key: PrivateKey)
    ensures var e := Unlock(New(publicKey), key);
            e.mediator.state == Active && e.mediator.phase == Some(LifecyclePhases.Unlock) &&
            e.boundary.active && e.security.ephemeral == Some(key) && e.mediator.anomalies == []
  {
  }

  /** Once LOCKED, a fresh `unlock` cannot leave LOCKED, though it still activates the boundary
      and loads the key; `erase` does return to COLD. */
  lemma OnlyEraseLeavesLocked(e: Engine, key: PrivateKey)
    requires Invariant(e) && e.mediator.state == Locked
    ensures Unlock(e, key).mediator.state == Locked
    ensures Unlock(e, key).boundary.active && Unlock(e, key).security.ephemeral == Some(key)
    ensures Erase(e).mediator.state == Cold
  {
  }

  /** `execute` before `unlock`: the phase request forces LOCKED, allocation then throws,
      and no key is loaded. */
  lemma ExecuteBeforeUnlock(publicKey: PublicKey, input: Bytes, signer: Signer)
    ensures var r := Execute(New(publicKey), input, signer);
            r.engine.mediator.state == Locked && r.result == Err(IllegalState) &&
            r.engine.security.ephemeral == None &&
            r.engine.mediator.anomalies == [LifecycleMustBeginWithUnlock]
  {
  }

  /** `execute` right after `unlock` moves to phase EXECUTE, stays ACTIVE and returns the
      signature of the input under the unlocked key. */
  lemma ExecuteAfterUnlock(publicKey: PublicKey, key: PrivateKey, input: Bytes, signer: Signer)
    ensures var r := Execute(Unlock(New(publicKey), key), input, signer);
            r.engine.mediator.state == Active &&
            r.engine.mediator.phase == Some(LifecyclePhases.Execute) &&
            r.result == Ok(signer(key, input)) &&
            r.engine.heap == [ClassifiedBuffer(input, true)] && r.engine.boundary.buffer == Some(0)
  {
  }

  /** A second `execute` is an illegal EXECUTE to EXECUTE transition and forces LOCKED, yet it
      still signs; the first buffer is dropped without a wipe. */
  lemma ExecuteTwice(publicKey: PublicKey, key: PrivateKey, first: Bytes, second: Bytes, signer: Signer)
    ensures var once := Execute(Unlock(New(publicKey), key), first, signer).engine;
            var r := Execute(once, second, signer);
            r.engine.mediator.state == Locked &&
            r.engine.mediator.anomalies ==
              [IllegalLifecycleTransition(LifecyclePhases.Execute, LifecyclePhases.Execute)] &&
            r.result == Ok(signer(key, second)) &&
            r.engine.heap == [ClassifiedBuffer(first, true), ClassifiedBuffer(second, true)]
  {
  }

  /** The full `unlock`, `execute`, `erase` cycle ends COLD with nothing logged, and every
      buffer the engine allocated is wiped. */
  lemma FullCycleWipesEverything(publicKey: PublicKey, key: PrivateKey, input: Bytes, signer: Signer)
    ensures var r := Erase(Execute(Unlock(New(publicKey), key), input, signer).engine);
            r.mediator.state == Cold && r.mediator.phase == None && r.mediator.anomalies == [] &&
            r.security.ephemeral == None && !r.boundary.active &&
            forall i :: 0 <= i < |r.heap| ==> !r.heap[i].valid && AllZero(r.heap[i].data)
  {
  }

  /** With two `execute` calls before `erase`, only the last buffer is wiped: the first one
      outlives teardown, still valid and still holding its input. */
  lemma FirstBufferOutlivesErase(publicKey: PublicKey, key: PrivateKey, first: Bytes, second: Bytes,
                                 signer: Signer)
    ensures var once := Execute(Unlock(New(publicKey), key), first, signer).engine;
            var r := Erase(Execute(once, second, signer).engine);
            r.mediator.state == Cold && r.heap[0] == ClassifiedBuffer(first, true) && !r.heap[1].valid
  {
  }

  /** After `execute` before `unlock` has forced LOCKED with no phase, a later `unlock` sets
      phase UNLOCK while staying LOCKED, and the next `execute` signs although the engine is LOCKED. */
  lemma LockedEngineSignsAfterUnlock(publicKey: PublicKey, key: PrivateKey, first: Bytes, second: Bytes,
                                     signer: Signer)
    ensures var locked := Execute(New(publicKey), first, signer).engine;
            var unlocked := Unlock(locked, key);
            var r := Execute(unlocked, second, signer);
            unlocked.mediator.state == Locked &&
            unlocked.mediator.phase == Some(LifecyclePhases.Unlock) &&
            r.engine.mediator.state == Locked &&
            r.engine.mediator.phase == Some(LifecyclePhases.Execute) &&
            r.result == Ok(signer(key, second))
  {
  }

  /** `getState` along the intended cycle: COLD when new, ACTIVE after `unlock` and after
      `execute`, COLD again after `erase`. */
  lemma GetStateAlongCycle(publicKey: PublicKey, key: PrivateKey, input: Bytes, signer: Signer)
    ensures var initial := New(publicKey);
            var unlocked := Unlock(initial, key);
            var executed := Execute(unlocked, input, signer).engine;
            GetState(initial) == Cold && GetState(unlocked) == Active &&
            GetState(executed) == Active && GetState(Erase(executed)) == Cold
  {
  }

  /** If the verification primitive accepts what the signing primitive produces for this key
      pair, the signature `execute` returns verifies against the engine's public key. */
  lemma ExecuteSignatureVerifies(publicKey: PublicKey, key: PrivateKey, input: Bytes,
                                 signer: Signer, verifier: Verifier)
    requires verifier(publicKey, input, signer(key, input))
    ensures var r := Execute(Unlock(New(publicKey), key), input, signer);
            r.result.Ok? && Verify(r.engine.security, input, r.result.value, verifier)
  {
  }
}
