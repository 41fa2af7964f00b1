/** The four operational states of the engine and their transition table. */
module EngineStates {

  datatype EngineState = Cold | Active | Teardown | Locked {

    /** `EngineState.isValidTransition`: may the engine move from this state to `next`? */
    predicate IsValidTransition(next: EngineState): (ok: bool)
      ensures ok <==> next in Successors(this)
    {
      match this
      case Cold => next == Active
      case Active => next == Cold || next == Locked
      case Teardown => next == Cold
      case Locked => next == Cold
    }
  }

  /** The same table written as successor sets, as an independent reference. */
  function Successors(s: EngineState): set<EngineState> {
    match s
    case Cold => {Active}
    case Active => {Cold, Locked}
    case Teardown => {Cold}
    case Locked => {Cold}
  }

  /** The predicate and the successor sets agree on every pair. */
  lemma TableMatchesSuccessors(s: EngineState, next: EngineState)
    ensures s.IsValidTransition(next) <==> next in Successors(s)
  {
  }

  /** From COLD the only way out is ACTIVE. */
  lemma ColdOnlyToActive(next: EngineState)
    ensures Cold.IsValidTransition(next) <==> next == Active
  {
  }

  /** From ACTIVE the engine may return to COLD or halt in LOCKED, nothing else. */
  lemma ActiveToColdOrLocked(next: EngineState)
    ensures Active.IsValidTransition(next) <==> (next == Cold || next == Locked)
  {
  }

  /** TEARDOWN and LOCKED both lead only to COLD. */
  lemma TeardownAndLockedOnlyToCold(next: EngineState)
    ensures Teardown.IsValidTransition(next) <==> next == Cold
    ensures Locked.IsValidTransition(next) <==> next == Cold
  {
  }

  /** No state may be re-entered from itself. */
  lemma NoSelfTransition(s: EngineState)
    ensures !s.IsValidTransition(s)
  {
  }

  /** COLD is reachable in one step from every state but COLD. */
  lemma ColdFromEveryOtherState(s: EngineState)
    ensures s.IsValidTransition(Cold) <==> s != Cold
  {
  }

  /** No transition of the table ever targets TEARDOWN. */
  lemma TeardownNeverATarget(s: EngineState)
    ensures !s.IsValidTransition(Teardown)
  {
  }

  /** A walk through the table: every step is a valid transition. */
  predicate IsPath(p: seq<EngineState>) {
    forall i :: 0 < i < |p| ==> p[i - 1].IsValidTransition(p[i])
  }

  /** Walking the table from any state other than TEARDOWN never reaches TEARDOWN. */
  lemma TeardownUnreachable(p: seq<EngineState>)
    requires IsPath(p) && |p| > 0 && p[0] != Teardown
    ensures Teardown !in p
  {
    forall i | 0 < i < |p|
      ensures p[i] != Teardown
    {
      TeardownNeverATarget(p[i - 1]);
    }
  }
}
