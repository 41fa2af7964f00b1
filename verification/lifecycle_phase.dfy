/** The UNLOCK, EXECUTE, ERASE traversal every sensitive operation follows. */
module LifecyclePhases {

  datatype LifecyclePhase = Unlock | Execute | Erase {

    /** Position in declaration order. */
    function Ordinal(): nat {
      match this
      case Unlock => 0
      case Execute => 1
      case Erase => 2
    }

    /** `LifecyclePhase.isValidTransition`: may the lifecycle move from this phase to `next`? */
    predicate IsValidTransition(next: LifecyclePhase): (ok: bool)
      ensures ok <==> next.Ordinal() == Ordinal() + 1
    {
      match this
      case Unlock => next == Execute
      case Execute => next == Erase
      case Erase => false
    }
  }

  /** UNLOCK leads to EXECUTE and nowhere else. */
  lemma UnlockOnlyToExecute(next: LifecyclePhase)
    ensures Unlock.IsValidTransition(next) <==> next == Execute
  {
  }

  /** EXECUTE leads to ERASE and nowhere else. */
  lemma ExecuteOnlyToErase(next: LifecyclePhase)
    ensures Execute.IsValidTransition(next) <==> next == Erase
  {
  }

  /** ERASE is terminal. */
  lemma EraseIsTerminal(next: LifecyclePhase)
    ensures !Erase.IsValidTransition(next)
  {
  }

  /** Every valid transition advances exactly one place in declaration order. */
  lemma TransitionsMoveForward(from: LifecyclePhase, next: LifecyclePhase)
    requires from.IsValidTransition(next)
    ensures next.Ordinal() == from.Ordinal() + 1
  {
  }

  /** No phase follows itself, and UNLOCK follows nothing. */
  lemma NoSelfTransitionNorReturnToUnlock(from: LifecyclePhase)
    ensures !from.IsValidTransition(from)
    ensures !from.IsValidTransition(Unlock)
  {
  }

  /** A walk through the phase table. */
  predicate IsPath(p: seq<LifecyclePhase>) {
    forall i :: 0 < i < |p| ==> p[i - 1].IsValidTransition(p[i])
  }

  /** Along a walk, the i-th phase sits i places after the first one. */
  lemma {:induction false} PathAdvancesByOne(p: seq<LifecyclePhase>)
    requires IsPath(p) && |p| > 0
    ensures forall i :: 0 <= i < |p| ==> p[i].Ordinal() == p[0].Ordinal() + i
  {
    if |p| > 1 {
      var q := p[..|p| - 1];
      assert IsPath(q) by {
        forall i | 0 < i < |q|
          ensures q[i - 1].IsValidTransition(q[i])
        {
          assert q[i - 1] == p[i - 1] && q[i] == p[i];
        }
      }
      PathAdvancesByOne(q);
      TransitionsMoveForward(p[|p| - 2], p[|p| - 1]);
      forall i | 0 <= i < |p|
        ensures p[i].Ordinal() == p[0].Ordinal() + i
      {
        if i < |q| {
          assert p[i] == q[i];
        }
      }
    }
  }

  /** Because phases only move forward, a session has at most three phases. */
  lemma PathHasAtMostThreePhases(p: seq<LifecyclePhase>)
    requires IsPath(p)
    ensures |p| <= 3
  {
    if |p| > 0 {
      PathAdvancesByOne(p);
      assert p[|p| - 1].Ordinal() == p[0].Ordinal() + |p| - 1;
    }
  }
}
