/** Reading a window of the keystream through blocks of any size (test/streams.c), and why the
    block size does not show. */
module Streams {
  import opened Prf
  import opened Arithmetic
  import opened Words
  import opened ChaCha
  import opened Splice
  import opened Provenance
  import opened Erasure

  /** Byte p of the concatenated blocks of a key. */
  function StreamByte(prf: Prf<byte>, key: seq<byte>, p: nat): (r: byte)
    requires prf.Sized() && |key| == prf.stateBytes && prf.outputLen > 0
  {
    DivMod(p, prf.outputLen);
    prf.Block(key, p / prf.outputLen)[p % prf.outputLen]
  }

  function Window(prf: Prf<byte>, key: seq<byte>, from: nat, len: nat): (r: seq<byte>)
    requires prf.Sized() && |key| == prf.stateBytes && prf.outputLen > 0
    ensures |r| == len && forall i | 0 <= i < len :: r[i] == StreamByte(prf, key, from + i)
  {
    seq(len, i requires 0 <= i < len => StreamByte(prf, key, from + i))
  }

  /** Block c starts at byte `base`. */
  ghost predicate StartsAt(c: nat, ol: nat, base: nat) { base == c * ol }

  lemma NextStarts(c: nat, ol: nat, base: nat)
    requires StartsAt(c, ol, base)
    ensures StartsAt(c + 1, ol, base + ol)
  {
    Multiply(c, ol);
  }

  lemma StreamByteAt(prf: Prf<byte>, key: seq<byte>, c: nat, j: nat)
    requires prf.Sized() && |key| == prf.stateBytes && j < prf.outputLen
    ensures c * prf.outputLen >= 0 && StreamByte(prf, key, c * prf.outputLen + j) == prf.Block(key, c)[j]
  {
    Multiply(c, prf.outputLen);
    DivUnique(c, prf.outputLen, j);
  }

  /** The part of block c from byte `skip` on is a window. */
  lemma BlockIsWindow(prf: Prf<byte>, key: seq<byte>, c: nat, skip: nat, n: nat, from: nat)
    requires prf.Sized() && |key| == prf.stateBytes && skip + n <= prf.outputLen && prf.outputLen > 0
    requires from >= skip && StartsAt(c, prf.outputLen, from - skip)
    ensures prf.Block(key, c)[skip..skip + n] == Window(prf, key, from, n)
  {
    hide StreamByte;
    var w := Window(prf, key, from, n);
    forall i | 0 <= i < n
      ensures prf.Block(key, c)[skip..skip + n][i] == w[i]
    {
      StreamByteAt(prf, key, c, skip + i);
      assert from + i == c * prf.outputLen + (skip + i);
    }
  }

  lemma WindowsJoin(prf: Prf<byte>, key: seq<byte>, from: nat, a: nat, b: nat)
    requires prf.Sized() && |key| == prf.stateBytes && prf.outputLen > 0
    ensures Window(prf, key, from, a) + Window(prf, key, from + a, b) == Window(prf, key, from, a + b)
  {
  }

  /** One block: copy n of its bytes from `skip` on. */
  method CopyPart(prf: Prf<byte>, key: seq<byte>, counter: nat, skip: nat, n: nat, output: array<byte>, at: nat,
                  ghost c: nat, ghost from: nat)
    requires prf.Sized() && |key| == prf.stateBytes && prf.outputLen > 0
    requires skip + n <= prf.outputLen && at + n <= output.Length && counter == Count(c)
    requires from >= skip && StartsAt(c, prf.outputLen, from - skip)
    modifies output
    ensures Wrote(old(output[..]), output[..], at, Window(prf, key, from, n))
  {
    hide Window, StreamByte, StartsAt;
    BlockIsWindow(prf, key, c, skip, n, from);
    var buf := prf.Block(key, counter);
    forall i | 0 <= i < n { output[at + i] := buf[skip + i]; }
    assert output[at..at + n] == buf[skip..skip + n];
  }

  /** One block more: what is written grows from a window of `at` bytes to one of at + n bytes. */
  method CopyNext(prf: Prf<byte>, key: seq<byte>, counter: nat, skip: nat, n: nat, output: array<byte>, at: nat,
                  ghost c: nat, ghost from: nat, ghost out0: seq<byte>)
    requires prf.Sized() && |key| == prf.stateBytes && prf.outputLen > 0
    requires skip + n <= prf.outputLen && at + n <= output.Length && counter == Count(c)
    requires from + at >= skip && StartsAt(c, prf.outputLen, from + at - skip)
    requires Wrote(out0, output[..], 0, Window(prf, key, from, at))
    modifies output
    ensures Wrote(out0, output[..], 0, Window(prf, key, from, at + n))
  {
    hide Window, StreamByte, StartsAt, Wrote;
    ghost var before := output[..];
    CopyPart(prf, key, counter, skip, n, output, at, c, from + at);
    WroteTwice(out0, before, output[..], 0, Window(prf, key, from, at), Window(prf, key, from + at, n));
    WindowsJoin(prf, key, from, at, n);
  }

  /** The block that byte skipBytes is in, and where in it. */
  method Locate(skipBytes: nat, ol: nat) returns (counter: nat, skip: nat)
    requires ol > 0 && skipBytes < COUNTER_SPAN
    ensures skip < ol && skip <= skipBytes && StartsAt(counter, ol, skipBytes - skip) && counter == Count(counter)
  {
    counter := skipBytes / ol;
    DivMod(skipBytes, ol);
    MulOrder(1, ol, counter);
    assert counter <= skipBytes;
    skip := skipBytes - counter * ol;
  }

  /** stream_generate: exactly the bytes skipBytes .. skipBytes + outputLen - 1 of the stream. */
  method StreamGenerate(prf: Prf<byte>, key: seq<byte>, output: array<byte>, outputLen: nat, skipBytes: nat)
    requires prf.Sized() && |key| == prf.stateBytes && prf.outputLen > 0
    requires outputLen <= output.Length && skipBytes < COUNTER_SPAN
    modifies output
    ensures Wrote(old(output[..]), output[..], 0, Window(prf, key, skipBytes, outputLen))
  {
    hide *;
    var ol := prf.outputLen;
    var counter, skip := Locate(skipBytes, ol);
    ghost var c: nat, out0, base: nat := counter, output[..], skipBytes - skip;
    var at: nat, left: nat := 0, outputLen;
    WroteNothing(out0, 0);
    WindowOfNothing(prf, key, skipBytes);
    while left > 0
      invariant at + left == outputLen && counter == Count(c) && 0 <= skip < ol
      invariant left > 0 ==> base + skip == skipBytes + at && StartsAt(c, ol, base)
      invariant Wrote(out0, output[..], 0, Window(prf, key, skipBytes, at))
      decreases left
    {
      var n := if ol - skip > left then left else ol - skip;
      CopyNext(prf, key, counter, skip, n, output, at, c, skipBytes, out0);
      NextStarts(c, ol, base);
      CountUp(c);
      counter := Count(counter + 1);
      c, base := c + 1, base + ol;
      at, left := at + n, left - n;
      skip := 0;
    }
  }

  lemma CountUp(c: nat)
    ensures Count(Count(c) + 1) == Count(c + 1)
  {
  }

  lemma WindowOfNothing(prf: Prf<byte>, key: seq<byte>, from: nat)
    requires prf.Sized() && |key| == prf.stateBytes && prf.outputLen > 0
    ensures Window(prf, key, from, 0) == []
  {
  }

  // ----- ChaCha: the block size does not show

  /** What a symbolic byte stands for under ChaCha. */
  function ChaChaMeaning(rounds: nat, entropy: (int, nat, nat) -> byte): (r: Meaning) {
    Meaning((k: seq<byte>, word: nat, off: nat) => KeystreamOf(rounds, k, word, off), entropy)
  }

  function KeystreamOf(rounds: nat, k: seq<byte>, word: nat, off: nat): (r: byte) {
    if |k| == 40 && off < 64 then BlockBytes(rounds, KeyOf(k), word)[off] else 0
  }

  /** Byte i of PRF block c is byte (c * 64 * step + i) mod 64 of ChaCha block
      (c * 64 * step + i) / 64, modulo 2^32. */
  lemma PrfBlockAt(rounds: nat, step: nat, k: seq<byte>, c: nat, i: nat)
    requires |k| == 40 && i < 64 * step
    ensures var p := c * (64 * step) + i;
            p >= 0 && PrfBlock(rounds, step, k, c)[i] == KeystreamOf(rounds, k, (p / 64) % COUNTER_SPAN, p % 64)
  {
    hide BlockBytes, KeyOf;
    var b, o := i / 64, i % 64;
    DivMod(i, 64);
    KeystreamByteAt(rounds, KeyOf(k), FirstBlock(c, step), step, b, o);
    BlockWraps(rounds, KeyOf(k), FirstBlock(c, step) + b);
    Rescale(c, step);
    DivUnique(FirstBlock(c, step) + b, 64, o);
  }

  lemma Rescale(c: nat, step: nat)
    ensures c * (64 * step) == 64 * FirstBlock(c, step) && c * (64 * step) >= 0
  {
  }

  /** The ChaCha PRF reads its blocks from one keystream, so all that is proved about terms holds
      of its bytes. */
  lemma ChaChaReads(rounds: nat, step: nat, entropy: (int, nat, nat) -> byte)
    requires 2 <= step <= 16
    ensures Reads(ChaChaPrf(rounds, step), SymPrf(40, 64 * step), ChaChaMeaning(rounds, entropy))
  {
    hide BlockBytes, KeyOf, KeystreamBytes;
    var prf, m := ChaChaPrf(rounds, step), ChaChaMeaning(rounds, entropy);
    forall k: seq<byte>, c: nat, i: nat | |k| == 40 && c < COUNTER_SPAN && i < prf.outputLen
      ensures prf.fn(k, c)[i] == KeystreamAt(m, k, c * prf.outputLen + i)
    {
      PrfBlockAt(rounds, step, k, c, i);
    }
  }

  /** Generators that make different numbers of blocks per call give the same window. */
  lemma WindowIndependence(rounds: nat, step1: nat, step2: nat, key: seq<byte>, from: nat, len: nat)
    requires 2 <= step1 <= 16 && 2 <= step2 <= 16 && |key| == 40
    requires from + len <= KEYSTREAM
    ensures Window(ChaChaPrf(rounds, step1), key, from, len) == Window(ChaChaPrf(rounds, step2), key, from, len)
  {
    hide BlockBytes, KeyOf, KeystreamBytes, StreamByte;
    forall p: nat | p < KEYSTREAM
      ensures StreamByte(ChaChaPrf(rounds, step1), key, p) == StreamByte(ChaChaPrf(rounds, step2), key, p)
    {
      StreamIsKeystream(rounds, step1, key, p);
      StreamIsKeystream(rounds, step2, key, p);
    }
  }

  lemma StreamIsKeystream(rounds: nat, step: nat, key: seq<byte>, p: nat)
    requires 2 <= step <= 16 && |key| == 40 && p < KEYSTREAM
    ensures StreamByte(ChaChaPrf(rounds, step), key, p) == KeystreamOf(rounds, key, (p / 64) % COUNTER_SPAN, p % 64)
  {
    hide BlockBytes, KeyOf, KeystreamBytes, KeystreamOf;
    var ol := 64 * step;
    DivMod(p, ol);
    PrfBlockAt(rounds, step, key, p / ol, p % ol);
    BlockInRange(p, ol);
  }

  lemma BlockInRange(p: nat, ol: nat)
    requires p < KEYSTREAM && ol >= 64
    ensures (p / ol) % COUNTER_SPAN == p / ol
  {
    DivMod(p, ol);
    MulOrder(64, ol, p / ol);
    assert 64 * (p / ol) <= p;
  }
}
