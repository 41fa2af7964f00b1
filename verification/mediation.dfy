/** The mediation controller: the single owner of the current state and phase.
    A rejected request never throws; it is logged as an anomaly and forces LOCKED. */
module Mediation {
  import opened Common
  import opened EngineStates
  import opened LifecyclePhases

  /** What the anomaly handler is told about a rejected request. */
  datatype Anomaly =
    | IllegalStateTransition(fromState: EngineState, toState: EngineState)
    | LifecycleMustBeginWithUnlock
    | IllegalLifecycleTransition(fromPhase: LifecyclePhase, toPhase: LifecyclePhase)

  /** The controller's fields; `anomalies` stands for the anomaly handler's log,
      oldest entry first. An unset (`null`) phase is `None`. */
  datatype MediationController = MediationController(
    state: EngineState,
    phase: Option<LifecyclePhase>,
    anomalies: seq<Anomaly>)

  /** A fresh controller: COLD, phase unset, nothing logged. */
  function New(): (m: MediationController)
    ensures m.state == Cold && m.phase == None && m.anomalies == []
  {
    MediationController(Cold, None, [])
  }

  /** `transitionState`: a valid request takes effect, anything else is logged and forces LOCKED. */
  function TransitionState(m: MediationController, next: EngineState): (r: MediationController)
    ensures r.phase == m.phase
    ensures r.state == next || r.state == Locked
    ensures r.state == next <==> m.state.IsValidTransition(next) || next == Locked
    ensures m.anomalies <= r.anomalies
    ensures m.state.IsValidTransition(next) ==> r.anomalies == m.anomalies
    ensures !m.state.IsValidTransition(next) ==>
              r.state == Locked && |r.anomalies| == |m.anomalies| + 1 &&
              r.anomalies[|m.anomalies|] == IllegalStateTransition(m.state, next)
  {
    if !m.state.IsValidTransition(next) then
      m.(state := Locked, anomalies := m.anomalies + [IllegalStateTransition(m.state, next)])
    else
      m.(state := next)
  }

  /** Does `transitionPhase` accept `next` while the phase is `current`?
      From the unset phase only UNLOCK is; afterwards the phase table decides. */
  predicate PhaseAccepted(current: Option<LifecyclePhase>, next: LifecyclePhase) {
    match current
    case None => next == Unlock
    case Some(p) => p.IsValidTransition(next)
  }

  /** The anomaly logged when `transitionPhase` rejects `next`. */
  function PhaseAnomaly(current: Option<LifecyclePhase>, next: LifecyclePhase): Anomaly {
    match current
    case None => LifecycleMustBeginWithUnlock
    case Some(p) => IllegalLifecycleTransition(p, next)
  }

  /** `transitionPhase`: an accepted request moves the phase and leaves the state alone;
      a rejected one leaves the phase alone, is logged, and forces LOCKED. */
  function TransitionPhase(m: MediationController, next: LifecyclePhase): (r: MediationController)
    ensures r.state == m.state || r.state == Locked
    ensures m.anomalies <= r.anomalies
    ensures PhaseAccepted(m.phase, next) ==>
              r.phase == Some(next) && r.state == m.state && r.anomalies == m.anomalies
    ensures !PhaseAccepted(m.phase, next) ==>
              r.phase == m.phase && r.state == Locked && |r.anomalies| == |m.anomalies| + 1 &&
              r.anomalies[|m.anomalies|] == PhaseAnomaly(m.phase, next)
  {
    if m.phase.None? then
      if next != Unlock then
        m.(state := Locked, anomalies := m.anomalies + [LifecycleMustBeginWithUnlock])
      else
        m.(phase := Some(next))
    else if !m.phase.value.IsValidTransition(next) then
      m.(state := Locked, anomalies := m.anomalies + [IllegalLifecycleTransition(m.phase.value, next)])
    else
      m.(phase := Some(next))
  }

  /** `resetLifecycle`: the phase becomes unset; state and log are untouched. */
  function ResetLifecycle(m: MediationController): (r: MediationController)
    ensures r.phase == None
    ensures r.state == m.state && r.anomalies == m.anomalies
  {
    m.(phase := None)
  }

  /** Once LOCKED, only a COLD request leaves it; phase requests never do. */
  lemma LockedIsSticky(m: MediationController, next: EngineState, p: LifecyclePhase)
    requires m.state == Locked
    ensures TransitionState(m, next).state == (if next == Cold then Cold else Locked)
    ensures TransitionPhase(m, p).state == Locked
  {
  }

  /** A request the controller can be given. */
  datatype Request =
    | StateRequest(state: EngineState)
    | PhaseRequest(phase: LifecyclePhase)
    | ResetRequest

  function Apply(m: MediationController, q: Request): MediationController {
    match q
    case StateRequest(s) => TransitionState(m, s)
    case PhaseRequest(p) => TransitionPhase(m, p)
    case ResetRequest => ResetLifecycle(m)
  }

  /** The controller after a whole sequence of requests. */
  function Run(m: MediationController, script: seq<Request>): MediationController
    decreases |script|
  {
    if script == [] then m else Run(Apply(m, script[0]), script[1..])
  }

  /** The anomaly log is append-only and grows by at most one entry per request. */
  lemma {:induction false} LogIsAppendOnly(m: MediationController, script: seq<Request>)
    ensures m.anomalies <= Run(m, script).anomalies
    ensures |Run(m, script).anomalies| <= |m.anomalies| + |script|
    decreases |script|
  {
    if script != [] {
      LogIsAppendOnly(Apply(m, script[0]), script[1..]);
    }
  }

  /** Without a request for COLD, nothing ever leaves LOCKED: only teardown can. */
  lemma {:induction false} LockedUntilColdRequested(m: MediationController, script: seq<Request>)
    requires m.state == Locked
    requires StateRequest(Cold) !in script
    ensures Run(m, script).state == Locked
    decreases |script|
  {
    if script != [] {
      assert script[0] != StateRequest(Cold);
      LockedIsSticky(m, if script[0].StateRequest? then script[0].state else Locked, Unlock);
      assert StateRequest(Cold) !in script[1..] by {
        assert forall q | q in script[1..] :: q in script;
      }
      LockedUntilColdRequested(Apply(m, script[0]), script[1..]);
    }
  }
}
