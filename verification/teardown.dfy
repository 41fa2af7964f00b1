/** The fixed destruction sequence that returns the engine to rest. */
module TeardownManager {
  import opened Common
  import EngineStates
  import opened Mediation
  import opened ClassifiedBuffers
  import opened Boundaries
  import opened Security

  /** The collaborators the teardown manager (and the facade) share, together with
      the heap their buffers live in. */
  datatype Components = Components(
    mediator: MediationController,
    boundary: Boundary,
    heap: Heap,
    security: SecurityController)

  /** The held buffer reference points into the heap. */
  predicate RefsValid(c: Components) {
    RefInHeap(c.boundary, c.heap)
  }

  /** `teardown`: destroy the key, destroy the boundary, reset the phase, then request COLD.
      The first three effects happen whatever becomes of the final request; that request
      succeeds from every state except COLD, where it is rejected and forces LOCKED. */
  function Teardown(c: Components): (r: Components)
    requires RefsValid(c)
    ensures r.security.ephemeral == None && r.security.publicKey == c.security.publicKey
    ensures !r.boundary.active && r.boundary.buffer == None && |r.heap| == |c.heap|
    ensures c.boundary.buffer.Some? ==>
              var wiped := r.heap[c.boundary.buffer.value];
              !wiped.valid && AllZero(wiped.data) && wiped.Capacity() == c.heap[c.boundary.buffer.value].Capacity()
    ensures forall i :: 0 <= i < |c.heap| && c.boundary.buffer != Some(i) ==> r.heap[i] == c.heap[i]
    ensures r.mediator.phase == None
    ensures c.mediator.state != EngineStates.Cold ==>
              r.mediator.state == EngineStates.Cold && r.mediator.anomalies == c.mediator.anomalies
    ensures c.mediator.state == EngineStates.Cold ==>
              r.mediator.state == EngineStates.Locked &&
              r.mediator.anomalies == c.mediator.anomalies +
                [IllegalStateTransition(EngineStates.Cold, EngineStates.Cold)]
  {
    var security := DestroyEphemeralKey(c.security);
    var destroyed := Destroy(c.boundary, c.heap);
    var mediator := TransitionState(ResetLifecycle(c.mediator), EngineStates.Cold);
    Components(mediator, destroyed.boundary, destroyed.heap, security)
  }

  /** Teardown is not idempotent on the state: the state alternates. Two teardowns in a row
      end in LOCKED when the first started outside COLD, and back in COLD when it started in COLD. */
  lemma TeardownTwice(c: Components)
    requires RefsValid(c)
    ensures RefsValid(Teardown(c))
    ensures Teardown(Teardown(c)).mediator.state ==
              (if c.mediator.state == EngineStates.Cold then EngineStates.Cold else EngineStates.Locked)
  {
  }
}
