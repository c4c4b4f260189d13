/** The scalar generator of src/chacha_merged.c. */
module Merged {
  import opened Prf
  import opened Words
  import opened ChaCha
  import opened Splice

  const IDX_STEP: nat := 16

  class MergedState {
    const input: array<Word>

    constructor ()
      ensures fresh(input) && input.Length == 16
    {
      input := new Word[16](_ => 0);
    }

    /** The state after a setup from these bytes; only the counter word changes later. */
    ghost predicate SetUp(bytes: seq<byte>)
      reads this, input
    {
      && input.Length == 16 && |bytes| == 40
      && input[0] == 0x61707865 && input[1] == 0x3320646e && input[2] == 0x79622d32 && input[3] == 0x6b206574
      && input[13] == 0
      && KeyOf(bytes) == Key(input[4], input[5], input[6], input[7], input[8], input[9], input[10], input[11],
                             input[14], input[15])
    }

    function LoadAt(bytes: array<byte>, at: nat): (r: Word)
      requires at + 4 <= bytes.Length
      reads bytes
    {
      Load(bytes[at..at + 4])
    }

    /** Key setup, then iv setup. */
    method Setup(bytes: array<byte>)
      requires input.Length == 16 && bytes.Length >= 40
      modifies input
      ensures SetUp(bytes[..40]) && input[12] == 0
    {
      hide KeyOf;
      var k := LoadKey(bytes);
      KeySetup(k);
      IvSetup(k);
    }

    /** The key words and the constants. */
    method KeySetup(k: Key)
      requires input.Length == 16
      modifies input
      ensures input[0] == 0x61707865 && input[1] == 0x3320646e && input[2] == 0x79622d32 && input[3] == 0x6b206574
      ensures k == Key(input[4], input[5], input[6], input[7], input[8], input[9], input[10], input[11], k.n0, k.n1)
    {
      input[4], input[5], input[6], input[7] := k.k0, k.k1, k.k2, k.k3;
      input[8], input[9], input[10], input[11] := k.k4, k.k5, k.k6, k.k7;
      input[0], input[1], input[2], input[3] := 0x61707865, 0x3320646e, 0x79622d32, 0x6b206574;
    }

    /** Counter 0 and the nonce words. */
    method IvSetup(k: Key)
      requires input.Length == 16
      modifies input
      ensures input[12] == input[13] == 0 && input[14] == k.n0 && input[15] == k.n1
      ensures forall i | 0 <= i < 12 :: input[i] == old(input[i])
    {
      input[12], input[13] := 0, 0;
      input[14], input[15] := k.n0, k.n1;
    }

    method LoadKey(bytes: array<byte>) returns (k: Key)
      requires bytes.Length >= 40
      ensures k == KeyOf(bytes[..40])
    {
      LoadsKey(bytes);
      k := Key(LoadAt(bytes, 0), LoadAt(bytes, 4), LoadAt(bytes, 8), LoadAt(bytes, 12),
               LoadAt(bytes, 16), LoadAt(bytes, 20), LoadAt(bytes, 24), LoadAt(bytes, 28),
               LoadAt(bytes, 32), LoadAt(bytes, 36));
    }

    lemma LoadsKey(bytes: array<byte>)
      requires bytes.Length >= 40
      ensures var k := KeyOf(bytes[..40]);
              && LoadAt(bytes, 0) == k.k0 && LoadAt(bytes, 4) == k.k1
              && LoadAt(bytes, 8) == k.k2 && LoadAt(bytes, 12) == k.k3
              && LoadAt(bytes, 16) == k.k4 && LoadAt(bytes, 20) == k.k5
              && LoadAt(bytes, 24) == k.k6 && LoadAt(bytes, 28) == k.k7
              && LoadAt(bytes, 32) == k.n0 && LoadAt(bytes, 36) == k.n1
    {
      hide Load;
      var bs := bytes[..40];
      WordAt(bs, 10);
      forall k | 0 <= k < 10 ensures LoadAt(bytes, 4 * k) == BytesToWords(bs)[k] {
        assert bytes[4 * k..4 * k + 4] == bs[4 * k..4 * k + 4];
      }
      assert LoadAt(bytes, 4 * 0) == BytesToWords(bs)[0] && LoadAt(bytes, 4 * 5) == BytesToWords(bs)[5];
    }

    method QuarterRound(a0: Word, b0: Word, c0: Word, d0: Word) returns (a: Word, b: Word, c: Word, d: Word)
      ensures Quad(a, b, c, d) == QRound(Quad(a0, b0, c0, d0))
    {
      a, b, c, d := a0, b0, c0, d0;
      a := Add(a, b); d := Rot16(XorW(d, a));
      c := Add(c, d); b := Rot12(XorW(b, c));
      a := Add(a, b); d := Rot8(XorW(d, a));
      c := Add(c, d); b := Rot7(XorW(b, c));
    }

    /** The rounds, in place on sixteen words. */
    method Rounds(rounds: nat, j: Block) returns (x: Block)
      requires rounds % 2 == 0
      ensures x == Times(rounds / 2, j)
    {
      hide QRound;
      var x0, x1, x2, x3, x4, x5, x6, x7 := j.x0, j.x1, j.x2, j.x3, j.x4, j.x5, j.x6, j.x7;
      var x8, x9, x10, x11, x12, x13, x14, x15 := j.x8, j.x9, j.x10, j.x11, j.x12, j.x13, j.x14, j.x15;
      var i := rounds;
      ghost var done := 0;
      while i > 0
        invariant 0 <= i == rounds - 2 * done
        invariant Block(x0, x1, x2, x3, x4, x5, x6, x7, x8, x9, x10, x11, x12, x13, x14, x15) == Times(done, j)
      {
        x0, x4, x8, x12 := QuarterRound(x0, x4, x8, x12);
        x1, x5, x9, x13 := QuarterRound(x1, x5, x9, x13);
        x2, x6, x10, x14 := QuarterRound(x2, x6, x10, x14);
        x3, x7, x11, x15 := QuarterRound(x3, x7, x11, x15);
        x0, x5, x10, x15 := QuarterRound(x0, x5, x10, x15);
        x1, x6, x11, x12 := QuarterRound(x1, x6, x11, x12);
        x2, x7, x8, x13 := QuarterRound(x2, x7, x8, x13);
        x3, x4, x9, x14 := QuarterRound(x3, x4, x9, x14);
        i := i - 2;
        done := done + 1;
      }
      x := Block(x0, x1, x2, x3, x4, x5, x6, x7, x8, x9, x10, x11, x12, x13, x14, x15);
    }

    method PutWord(c: array<byte>, at: nat, w: Word)
      requires at + 4 <= c.Length
      modifies c
      ensures Wrote(old(c[..]), c[..], at, Store(w))
    {
      hide Store;
      var b := Store(w);
      c[at], c[at + 1], c[at + 2], c[at + 3] := b[0], b[1], b[2], b[3];
    }

    method PutBlock(c: array<byte>, at: nat, x: Block)
      requires at + 64 <= c.Length
      modifies c
      ensures Wrote(old(c[..]), c[..], at, WordsToBytes(ListOf(x)))
      ensures c[at..at + 4] == Store(x.x0) && c[at + 4..at + 8] == Store(x.x1)
      ensures c[at + 8..at + 12] == Store(x.x2) && c[at + 12..at + 16] == Store(x.x3)
      ensures c[at + 16..at + 20] == Store(x.x4) && c[at + 20..at + 24] == Store(x.x5)
      ensures c[at + 24..at + 28] == Store(x.x6) && c[at + 28..at + 32] == Store(x.x7)
      ensures c[at + 32..at + 36] == Store(x.x8) && c[at + 36..at + 40] == Store(x.x9)
      ensures c[at + 40..at + 44] == Store(x.x10) && c[at + 44..at + 48] == Store(x.x11)
      ensures c[at + 48..at + 52] == Store(x.x12) && c[at + 52..at + 56] == Store(x.x13)
      ensures c[at + 56..at + 60] == Store(x.x14) && c[at + 60..at + 64] == Store(x.x15)
    {
      hide ListOf, Store, Wrote, WordsToBytes;
      PutWords(c, at, x);
      Written(old(c[..]), c[..], at, WordsToBytes(ListOf(x)));
      BlockInOrder(c[..], at, x);
    }

    /** The sixteen words one after the other. */
    method PutWords(c: array<byte>, at: nat, x: Block)
      requires at + 64 <= c.Length
      modifies c
      ensures Wrote(old(c[..]), c[..], at, WordsToBytes(ListOf(x)))
    {
      hide ListOf, Store, Wrote;
      var ws := ListOf(x);
      ghost var c0 := c[..];
      WroteNothing(c0, at);
      assert WordsToBytes(ws[..0]) == [];
      for i := 0 to 16
        invariant Wrote(c0, c[..], at, WordsToBytes(ws[..i]))
      {
        ghost var before := c[..];
        PutWord(c, at + 4 * i, ws[i]);
        assert ws[..i + 1][..i] == ws[..i] && ws[..i + 1][i] == ws[i];
        WroteTwice(c0, before, c[..], at, WordsToBytes(ws[..i]), Store(ws[i]));
      }
      assert ws[..16] == ws;
    }

    /** One block: the rounds, the feed-forward, and the bytes.  j12 is the counter word. */
    method EmitBlock(rounds: nat, j: Block, j12: Word, c: array<byte>, at: nat, ghost key: Key, ghost ctr: nat)
      requires rounds % 2 == 0 && at + 64 <= c.Length && IsInput(j, key) && j12 == Count(ctr)
      modifies c
      ensures Wrote(old(c[..]), c[..], at, BlockBytes(rounds, key, ctr))
    {
      hide Wrote;
      var input := j.(x12 := j12);
      var x := Rounds(rounds, input);
      PutBlock(c, at, Plus(x, input));
    }

    /** The sixteen words of the state. */
    method ReadInput() returns (j: Block)
      requires input.Length == 16
      ensures j == Block(input[0], input[1], input[2], input[3], input[4], input[5], input[6], input[7],
                         input[8], input[9], input[10], input[11], input[12], input[13], input[14], input[15])
    {
      j := Block(input[0], input[1], input[2], input[3], input[4], input[5], input[6], input[7],
                 input[8], input[9], input[10], input[11], input[12], input[13], input[14], input[15]);
    }

    /** `step` blocks from the counter word on; the C makes IDX_STEP. */
    method GetBlocks(rounds: nat, step: nat, c: array<byte>, ghost bytes: seq<byte>, ghost ctr: nat)
      requires rounds % 2 == 0 && c.Length >= 64 * step && SetUp(bytes) && input[12] == Count(ctr)
      modifies c
      ensures Wrote(old(c[..]), c[..], 0, KeystreamBytes(rounds, KeyOf(bytes), ctr, step))
    {
      hide KeyOf, BlockBytes, KeystreamBytes, Wrote;
      var j := ReadInput();
      BlockLoop(rounds, step, j, c, KeyOf(bytes), ctr);
    }

    /** The loop over the blocks: only the counter word changes. */
    method BlockLoop(rounds: nat, step: nat, j: Block, c: array<byte>, ghost key: Key, ghost ctr: nat)
      requires rounds % 2 == 0 && c.Length >= 64 * step && IsInput(j, key) && j.x12 == Count(ctr)
      modifies c
      ensures Wrote(old(c[..]), c[..], 0, KeystreamBytes(rounds, key, ctr, step))
    {
      hide *;
      var j12 := j.x12;
      ghost var c0 := c[..];
      WroteNothing(c0, 0);
      KeystreamStarts(rounds, key, ctr);
      for block := 0 to step
        invariant j12 == Count(ctr + block)
        invariant Wrote(c0, c[..], 0, KeystreamBytes(rounds, key, ctr, block))
      {
        ghost var before := c[..];
        EmitBlock(rounds, j, j12, c, 64 * block, key, ctr + block);
        WroteTwice(c0, before, c[..], 0, KeystreamBytes(rounds, key, ctr, block), BlockBytes(rounds, key, ctr + block));
        KeystreamGrows(rounds, key, ctr, block);
        CountsUp(ctr + block);
        j12 := Add(j12, Count(1));
      }
    }

    /** The PRF call: exactly block idx of the ChaCha PRF. */
    method Generate(rounds: nat, output: array<byte>, idx: nat, ghost bytes: seq<byte>)
      requires rounds % 2 == 0 && SetUp(bytes) && output.Length >= 64 * IDX_STEP
      modifies input, output
      ensures SetUp(bytes)
      ensures Wrote(old(output[..]), output[..], 0, PrfBlock(rounds, IDX_STEP, bytes, idx))
    {
      input[12] := (idx * IDX_STEP) % COUNTER_SPAN;
      GetBlocks(rounds, IDX_STEP, output, bytes, idx * IDX_STEP);
    }
  }

  /** A call fills 1024 bytes. */
  lemma OutputLength()
    ensures 64 * IDX_STEP == 1024
  {
  }

  /** The words of a block of that key, whatever its counter word. */
  ghost predicate IsInput(j: Block, key: Key) {
    j == InputAt(key, j.x12)
  }

  lemma {:induction false} WordAt(bs: seq<byte>, n: nat)
    requires |bs| == 4 * n
    ensures forall k | 0 <= k < n :: BytesToWords(bs)[k] == Load(bs[4 * k..4 * k + 4])
  {
    hide Load;
    if n > 0 {
      var front := bs[..4 * (n - 1)];
      WordAt(front, n - 1);
      assert bs[..|bs| - 4] == front && bs[|bs| - 4..] == bs[4 * (n - 1)..4 * (n - 1) + 4];
      forall k | 0 <= k < n ensures BytesToWords(bs)[k] == Load(bs[4 * k..4 * k + 4]) {
        if k < n - 1 { assert front[4 * k..4 * k + 4] == bs[4 * k..4 * k + 4]; }
      }
    }
  }
}
