/** A fixed-capacity scratch region for classified bytes, with a `valid` flag
    that a wipe clears for good. */
module ClassifiedBuffers {
  import opened Common

  /** The buffer's capacity is `|data|`; it is fixed at allocation. */
  datatype ClassifiedBuffer = ClassifiedBuffer(data: Bytes, valid: bool) {
    function Capacity(): nat {
      |data|
    }
  }

  predicate AllZero(s: Bytes) {
    forall i :: 0 <= i < |s| ==> s[i] == 0
  }

  /** A fresh buffer: `size` zero bytes, valid. */
  function New(size: nat): (b: ClassifiedBuffer)
    ensures b.valid && b.Capacity() == size && AllZero(b.data)
  {
    ClassifiedBuffer(seq(size, _ => 0), true)
  }

  /** The buffer after a `write`, and whether the call returned or threw. */
  datatype WriteReply = WriteReply(buffer: ClassifiedBuffer, result: Result<()>)

  /** `write`: refuses an invalidated buffer and an input longer than the capacity;
      otherwise the input overwrites a prefix and the bytes after it stay as they were. */
  function Write(b: ClassifiedBuffer, input: Bytes): (r: WriteReply)
    ensures r.result.Ok? <==> b.valid && |input| <= b.Capacity()
    ensures !b.valid ==> r.result == Err(IllegalState)
    ensures b.valid && |input| > b.Capacity() ==> r.result == Err(IllegalArgument)
    ensures r.result.Err? ==> r.buffer == b
    ensures r.result.Ok? ==>
              r.buffer.valid && r.buffer.Capacity() == b.Capacity() &&
              r.buffer.data[..|input|] == input &&
              r.buffer.data[|input|..] == b.data[|input|..]
  {
    if !b.valid then
      WriteReply(b, Err(IllegalState))
    else if |input| > |b.data| then
      WriteReply(b, Err(IllegalArgument))
    else
      WriteReply(b.(data := input + b.data[|input|..]), Ok(()))
  }

  /** `read`: refuses an invalidated buffer, otherwise a copy of all `Capacity()` bytes.
      The buffer itself is not changed, so the function returns no new buffer. */
  function Read(b: ClassifiedBuffer): (r: Result<Bytes>)
    ensures r.Ok? <==> b.valid
    ensures !b.valid ==> r == Err(IllegalState)
    ensures r.Ok? ==> r.value == b.data && |r.value| == b.Capacity()
  {
    if !b.valid then Err(IllegalState) else Ok(b.data)
  }

  /** `wipe`: every byte zero, invalid from now on, capacity kept. It never fails. */
  function Wipe(b: ClassifiedBuffer): (r: ClassifiedBuffer)
    ensures !r.valid && AllZero(r.data) && r.Capacity() == b.Capacity()
  {
    ClassifiedBuffer(seq(|b.data|, _ => 0), false)
  }

  /** Wiping twice is wiping once. */
  lemma WipeIsIdempotent(b: ClassifiedBuffer)
    ensures Wipe(Wipe(b)) == Wipe(b)
  {
  }

  /** After a wipe every read and every write is refused. */
  lemma WipedBufferRefusesAccess(b: ClassifiedBuffer, input: Bytes)
    ensures Read(Wipe(b)) == Err(IllegalState)
    ensures Write(Wipe(b), input) == WriteReply(Wipe(b), Err(IllegalState))
  {
  }

  /** Writing into a fresh buffer of exactly the input's size and reading back yields the input. */
  lemma WriteThenReadRoundTrip(input: Bytes)
    ensures Write(New(|input|), input).result.Ok?
    ensures Read(Write(New(|input|), input).buffer) == Ok(input)
  {
    var w := Write(New(|input|), input);
    assert w.buffer.data == w.buffer.data[..|input|];
  }

  /** In a larger fresh buffer the read-back is the input followed by zeros. */
  lemma WriteThenReadPadsWithZeros(input: Bytes, size: nat)
    requires |input| <= size
    ensures Read(Write(New(size), input).buffer) == Ok(input + seq(size - |input|, _ => 0))
  {
    var w := Write(New(size), input);
    assert w.buffer.data[|input|..] == New(size).data[|input|..] == seq(size - |input|, _ => 0);
    assert w.buffer.data == w.buffer.data[..|input|] + w.buffer.data[|input|..];
  }

  /** A call that can be made on a buffer. */
  datatype BufferCall = WriteCall(input: Bytes) | ReadCall | WipeCall

  function Apply(b: ClassifiedBuffer, c: BufferCall): ClassifiedBuffer {
    match c
    case WriteCall(input) => Write(b, input).buffer
    case ReadCall => b
    case WipeCall => Wipe(b)
  }

  /** The buffer after a sequence of calls. */
  function ApplyAll(b: ClassifiedBuffer, calls: seq<BufferCall>): ClassifiedBuffer
    decreases |calls|
  {
    if calls == [] then b else ApplyAll(Apply(b, calls[0]), calls[1..])
  }

  /** No sequence of calls changes the capacity or makes an invalid buffer valid again. */
  lemma {:induction false} InvalidityIsPermanent(b: ClassifiedBuffer, calls: seq<BufferCall>)
    ensures ApplyAll(b, calls).Capacity() == b.Capacity()
    ensures !b.valid ==> !ApplyAll(b, calls).valid
    decreases |calls|
  {
    if calls != [] {
      InvalidityIsPermanent(Apply(b, calls[0]), calls[1..]);
    }
  }
}
