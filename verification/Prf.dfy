/** The pseudorandom function a generator is built on.

    A PRF maps a key of `stateBytes` bytes and a 32-bit counter to a block of `outputLen`
    bytes.  It is a parameter: nothing here depends on which function it is.  The element
    type is a parameter too, so that the same machine can run over bytes and over symbolic
    tags; `mix` is what add-seed uses to combine a block byte with a seed byte. */
module Prf {

  type byte = bv8

  const MAX_STATE_BYTES: nat := 64
  const MAX_OUTPUT_LEN: nat := 1024
  const COUNTER_SPAN: nat := 0x1_0000_0000

  /** The limits are those of the header, and the counter has 32 bits. */
  lemma Limits()
    ensures MAX_STATE_BYTES == 64 && MAX_OUTPUT_LEN == 1024 && COUNTER_SPAN == 0x1_0000_0000
  {
  }

  datatype Prf<!T(!new)> = Prf(stateBytes: nat, outputLen: nat, fn: (seq<T>, nat) -> seq<T>, mix: (T, T) -> T) {

    /** The test made when a state is initialized. */
    predicate PassesShapeTest() {
      stateBytes <= MAX_STATE_BYTES && stateBytes <= outputLen && outputLen <= MAX_OUTPUT_LEN
    }

    /** `generate` fills outputLen bytes. */
    ghost predicate Sized() {
      forall k: seq<T>, c: nat :: |k| == stateBytes && c < COUNTER_SPAN ==> |fn(k, c)| == outputLen
    }

    /** What the request paths rely on; `ShapeTestIsTooWeak` shows that the shape test is less. */
    ghost predicate WellFormed() {
      PassesShapeTest() && Dimensions(stateBytes, outputLen) && Sized()
    }

    /** One call of `generate`; the counter is a uint32_t. */
    function Block(key: seq<T>, ctr: nat): (r: seq<T>)
      requires Sized() && |key| == stateBytes
      ensures |r| == outputLen
    {
      fn(key, ctr % COUNTER_SPAN)
    }
  }

  predicate Dimensions(sb: nat, ol: nat) {
    2 <= sb && 2 * sb <= ol && sb + 8 < ol
  }

  function Xor(a: byte, b: byte): (r: byte) { a ^ b }

  /** A PRF over bytes whose `mix` is exclusive or, as in the C. */
  ghost predicate OverBytes(prf: Prf<byte>) {
    prf.WellFormed() && forall a, b :: prf.mix(a, b) == Xor(a, b)
  }
}
