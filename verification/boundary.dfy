/** The boundary that gates allocation of the classified buffer and destroys it.

    `allocateBuffer` hands out the very object it keeps, and the facade then writes
    through that reference, so buffers are modelled as cells of a heap and the
    boundary holds a reference into it. A buffer the boundary stops holding stays
    in the heap exactly as it was. */
module Boundaries {
  import opened Common
  import opened ClassifiedBuffers

  /** A reference to a buffer: its index in the heap. */
  type BufferRef = nat

  /** Every buffer ever allocated, in allocation order. */
  type Heap = seq<ClassifiedBuffer>

  /** The boundary's fields; a `null` buffer is `None`. */
  datatype Boundary = Boundary(active: bool, buffer: Option<BufferRef>)

  /** The held reference, if any, points at a buffer of the heap. */
  predicate RefInHeap(bd: Boundary, heap: Heap) {
    bd.buffer.Some? ==> bd.buffer.value < |heap|
  }

  /** The boundary and heap after a call, and what the call returned or threw. */
  datatype Effect<+T> = Effect(boundary: Boundary, heap: Heap, result: Result<T>)

  /** A fresh boundary: inactive and holding no buffer. */
  function New(): (bd: Boundary)
    ensures !bd.active && bd.buffer == None
  {
    Boundary(false, None)
  }

  /** `activate`: the boundary becomes active; the held buffer is untouched. */
  function Activate(bd: Boundary): (r: Boundary)
    ensures r.active && r.buffer == bd.buffer
  {
    bd.(active := true)
  }

  /** Activating twice is activating once. */
  lemma ActivateIsIdempotent(bd: Boundary)
    ensures Activate(Activate(bd)) == Activate(bd)
  {
  }

  /** `allocateBuffer`: refused on an inactive boundary; otherwise a fresh valid zeroed buffer
      of `size` bytes is added to the heap, held by the boundary, and that same reference is
      returned. Cells already in the heap, the previously held buffer among them, are untouched. */
  function AllocateBuffer(bd: Boundary, heap: Heap, size: nat): (r: Effect<BufferRef>)
    ensures !bd.active ==> r == Effect(bd, heap, Err(IllegalState))
    ensures bd.active ==>
              && r.result.Ok?
              && r.boundary.active
              && r.boundary.buffer == Some(r.result.value)
              && r.result.value == |heap| && |r.heap| == |heap| + 1
              && heap <= r.heap
              && r.heap[r.result.value] == ClassifiedBuffers.New(size)
  {
    if !bd.active then
      Effect(bd, heap, Err(IllegalState))
    else
      var ref := |heap|;
      Effect(bd.(buffer := Some(ref)), heap + [ClassifiedBuffers.New(size)], Ok(ref))
  }

  /** Allocating again drops the previous buffer without wiping it: it is no longer held,
      and its cell keeps its bytes and its `valid` flag. */
  lemma AllocateOrphansPrevious(bd: Boundary, heap: Heap, size: nat)
    requires bd.active && RefInHeap(bd, heap) && bd.buffer.Some?
    ensures AllocateBuffer(bd, heap, size).boundary.buffer != bd.buffer
    ensures AllocateBuffer(bd, heap, size).heap[bd.buffer.value] == heap[bd.buffer.value]
  {
  }

  /** `destroy`: the held buffer, if any, is wiped and dropped, and the boundary is deactivated.
      No other buffer changes. */
  function Destroy(bd: Boundary, heap: Heap): (r: Effect<()>)
    requires RefInHeap(bd, heap)
    ensures r.result.Ok? && !r.boundary.active && r.boundary.buffer == None
    ensures |r.heap| == |heap|
    ensures bd.buffer.Some? ==>
              var wiped := r.heap[bd.buffer.value];
              !wiped.valid && AllZero(wiped.data) && wiped.Capacity() == heap[bd.buffer.value].Capacity()
    ensures forall i :: 0 <= i < |heap| && bd.buffer != Some(i) ==> r.heap[i] == heap[i]
  {
    match bd.buffer
    case None => Effect(Boundary(false, None), heap, Ok(()))
    case Some(ref) => Effect(Boundary(false, None), heap[ref := Wipe(heap[ref])], Ok(()))
  }

  /** Destroying twice is destroying once; on an empty inactive boundary it changes nothing. */
  lemma DestroyIsIdempotent(bd: Boundary, heap: Heap)
    requires RefInHeap(bd, heap)
    ensures Destroy(Destroy(bd, heap).boundary, Destroy(bd, heap).heap) == Destroy(bd, heap)
    ensures !bd.active && bd.buffer == None ==> Destroy(bd, heap) == Effect(bd, heap, Ok(()))
  {
  }
}
