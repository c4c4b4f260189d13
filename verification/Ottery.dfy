/** The state of src/ottery.c, updated in place, proved against Machine.dfy and Session.dfy. */
module Ottery {
  import opened Prf
  import opened Machine
  import opened Arithmetic
  import opened Entropy
  import opened Session
  import opened Range
  import opened Splice
  import opened Clearing
  import W = Words

  const MAGIC_BASIS: bv32 := 0x11b07734

  function Magic(address: bv32): (r: bv32) { address ^ MAGIC_BASIS }

  /** The magic number is the basis combined with the address, so it tells addresses apart. */
  lemma MagicIs(address: bv32, other: bv32)
    ensures Magic(address) ^ address == 0x11b07734
    ensures Magic(address) == Magic(other) ==> address == other
  {
    assert (address ^ MAGIC_BASIS) ^ address == MAGIC_BASIS;
    assert (other ^ MAGIC_BASIS) ^ MAGIC_BASIS == other;
  }

  lemma MagicTest(magic: bv32, address: bv32)
    ensures magic == Magic(address) <==> magic ^ address == 0x11b07734
  {
    hide Magic;
    MagicIs(address, address);
    var basis := magic ^ address;
    assert basis ^ address == magic;
    UnMagic(basis, address);
  }

  lemma UnMagic(basis: bv32, address: bv32)
    ensures basis ^ address == Magic(address) ==> basis == 0x11b07734
    ensures basis == 0x11b07734 ==> basis ^ address == Magic(address)
  {
    assert MAGIC_BASIS ^ address == address ^ MAGIC_BASIS;
  }

  predicate Aligned(address: bv32) { (address & 0xf) == 0 }

  /** Aligned means a multiple of 16. */
  lemma AlignedIs(address: bv32)
    ensures Aligned(address) <==> address % 16 == 0
  {
    assert address & 0xf == address % 16;
  }

  /** No aligned state has magic number 0, so a cleared state is never taken for a live one. */
  lemma ClearedIsDead(address: bv32)
    requires Aligned(address)
    ensures Magic(address) != 0
  {
    assert (address & 0xf) == 0 ==> (address ^ 0x11b07734) != 0;
  }

  lemma FitsInBuffer(prf: Prf<byte>, s: State<byte>, n: nat)
    requires Quiet(prf, s) && n < |s.buf|
    ensures FromBuf(prf, s, n) == Take(s, n)
  {
  }

  lemma UsesUpBuffer(prf: Prf<byte>, s: State<byte>, n: nat)
    requires Quiet(prf, s) && |s.buf| <= n < |s.buf| + prf.outputLen - prf.stateBytes
    ensures var r := Take(StirAt(prf, s.key, 0), n - |s.buf|);
            FromBuf(prf, s, n) == Reply(r.state, s.buf + r.out)
  {
  }

  lemma FrontOfRest(b: seq<byte>, pos: nat, n: nat, ol: nat)
    requires pos + n <= ol <= |b|
    ensures b[pos..pos + n] == b[pos..ol][..n]
  {
  }

  /** Three writes, one after the other. */
  lemma WroteThrice(s0: seq<byte>, s1: seq<byte>, s2: seq<byte>, s3: seq<byte>, off: nat,
                    a: seq<byte>, b: seq<byte>, c: seq<byte>)
    requires Wrote(s0, s1, off, a) && Wrote(s1, s2, off + |a|, b) && Wrote(s2, s3, off + |a| + |b|, c)
    ensures Wrote(s0, s3, off, a + b + c)
  {
    hide Wrote;
    WroteTwice(s0, s1, s2, off, a, b);
    WroteTwice(s0, s2, s3, off, a + b, c);
  }

  /** Clearing n bytes from the start of a buffer that holds a block without its key bytes. */
  lemma ClearFront(block: seq<byte>, b: seq<byte>, b': seq<byte>, sb: nat, n: nat)
    requires sb <= |block| <= |b| && n <= |block|
    requires b[..|block|] == ClearedTo(block, sb) && b' == Zeros(n) + b[n..]
    ensures b'[..|block|] == ClearedTo(block, Max(sb, n))
  {
    var front := ClearedTo(block, sb);
    assert b'[..|block|] == Zeros(n) + b[..|block|][n..];
    ClearMore(block, sb, n);
  }

  /** Clearing the key bytes of a block at the start of the buffer. */
  lemma KeyCleared(b: seq<byte>, b': seq<byte>, sb: nat, ol: nat)
    requires sb <= ol <= |b| && Wrote(b, b', 0, Zeros(sb))
    ensures |b'| == |b| && b'[..ol] == ClearedTo(b[..ol], sb) && b'[sb..ol] == b[..ol][sb..]
    ensures forall i | 0 <= i < sb :: b'[i] == 0
  {
  }

  lemma ClearMore(block: seq<byte>, sb: nat, n: nat)
    requires sb <= |block| && n <= |block|
    ensures Zeros(n) + ClearedTo(block, sb)[n..] == ClearedTo(block, Max(sb, n))
  {
  }

  /** Clearing n bytes at a position, seen in the first ol bytes of the buffer. */
  lemma ClearHere(b: seq<byte>, b': seq<byte>, ol: nat, pos: nat, n: nat)
    requires ol <= |b| && pos + n <= ol && Wrote(b, b', pos, Zeros(n))
    ensures |b'| == |b| && b'[..ol] == b[..ol][..pos] + Zeros(n) + b[..ol][pos + n..]
  {
  }

  /** After a refill nothing of the buffer before it is left. */
  lemma FrontForgets(sb: nat, pos: nat, n: nat, b1: seq<byte>, b2: seq<byte>, block: seq<byte>)
    requires 2 * sb <= |block| == |b1| == |b2| && pos < |block| <= n + pos < 2 * |block| - sb
    ensures FromBufFront(sb, pos, n, b1, block) == FromBufFront(sb, pos, n, b2, block)
  {
  }

  lemma SmallFront(sb: nat, pos: nat, n: nat, before: seq<byte>, block: seq<byte>)
    requires sb <= pos < |block| == |before| && Dimensions(sb, |block|) && n + pos < |block| * 2 - sb - 1
    ensures RequestFront(sb, pos, n, before, block) == FromBufFront(sb, pos, n, before, block)
  {
  }

  lemma LargeFront(prf: Prf<byte>, s: State<byte>, n: nat, q: nat, left: nat, before: seq<byte>, block: seq<byte>)
    requires Quiet(prf, s) && |block| == |before| == prf.outputLen && left < prf.outputLen
    requires n == |s.buf| + |Raw(prf, s.key, q)| + left && n >= |s.buf| + prf.outputLen - prf.stateBytes - 1
    ensures var sb := prf.stateBytes;
            RequestFront(sb, prf.outputLen - |s.buf|, n, before, block)
            == FromBufFront(sb, sb, left, ClearedTo(block, sb), block)
  {
    hide FromBufFront, ClearedTo;
    DivUnique(q, prf.outputLen, left);
  }

  /** The three cases of an integer draw. */
  lemma TinyCases(prf: Prf<byte>, s: State<byte>, k: nat)
    requires Quiet(prf, s) && k <= 8
    ensures k < |s.buf| ==> Tiny(prf, s, k) == Take(s, k)
    ensures k == |s.buf| ==> Tiny(prf, s, k) == Reply(StirAt(prf, s.key, 0), s.buf)
    ensures k > |s.buf| ==> Tiny(prf, s, k) == Take(StirAt(prf, s.key, 0), k)
  {
  }

  lemma DrawFrontCases(sb: nat, pos: nat, k: nat, before: seq<byte>, block: seq<byte>)
    requires sb <= pos < |block| == |before| && Dimensions(sb, |block|) && k <= 8
    ensures k + pos < |block| ==> DrawFront(sb, pos, k, before, block) == before[..pos] + Zeros(k) + before[pos + k..]
    ensures k + pos == |block| ==> DrawFront(sb, pos, k, before, block) == ClearedTo(block, sb)
    ensures k + pos > |block| ==> DrawFront(sb, pos, k, before, block) == ClearedTo(block, Max(sb, k))
  {
  }

  /** One round of a range draw: a refused integer reads 0 and is accepted; otherwise the round
      answers with the drawn word, or leaves the same attempt with one try less. */
  lemma RangeRound(prf: Prf<byte>, s: Session<byte>, draw: Draw<byte>, k: nat, upper: nat, self: int, tries: nat)
    requires prf.WellFormed() && Sound(prf, s) && (k == 4 || k == 8) && upper < Span(k)
    ensures var c := Check(prf, s, self, draw);
            var r := Rand(prf, s, Int(k), self, draw);
            match r.outcome
            case Refused(_) => r == c && r.session == s && Reduce(Span(k), upper, 0) == 0
            case Done(out) =>
              && c.outcome == Done([])
              && (Attempt(prf, c.session.core, k, upper, tries).Picked? ==>
                    && tries > 0
                    && Check(prf, r.session, self, draw) == Step(r.session, Done([]))
                    && Attempt(prf, c.session.core, k, upper, tries) ==
                         if Accepts(Span(k), upper, Value(out))
                         then Picked(r.session.core, Reduce(Span(k), upper, Value(out)))
                         else Attempt(prf, r.session.core, k, upper, tries - 1))
  {
    ZeroIsAccepted(Span(k), upper);
  }

  lemma RawStartsEmpty(prf: Prf<byte>, k: seq<byte>)
    requires prf.WellFormed() && |k| == prf.stateBytes
    ensures Raw(prf, k, 0) == []
  {
  }

  class OtteryState {
    /** Where the state is in memory: the low 32 bits of its address. */
    const address: bv32
    const buffer: array<byte>
    var prf: Prf<byte>
    /** What the PRF state was last set up from. */
    var key: seq<byte>
    var blockCounter: nat
    var magic: bv32
    var pos: nat
    var pid: int
    var config: Config
    var entropySrcFlags: Mask
    var lastEntropyFlags: Mask
    /** The last stirred block. */
    ghost var block: seq<byte>

    /** Cleared memory; until initialization the PRF is a placeholder that nothing reads. */
    constructor (address: bv32, prf: Prf<byte>)
      requires OverBytes(prf)
      ensures fresh(buffer) && buffer.Length == MAX_OUTPUT_LEN && this.address == address && magic == 0
      ensures OverBytes(this.prf)
      ensures Aligned(address) ==> Valid() && Abstract() == Dead
    {
      this.address := address;
      buffer := new byte[MAX_OUTPUT_LEN](_ => 0);
      this.prf, key, blockCounter, magic, pos, pid := prf, [], 0, 0, 0, 0;
      config, entropySrcFlags, lastEntropyFlags, block := Config({}, {}), {}, {}, [];
      new;
      if Aligned(address) { ClearedIsDead(address); }
    }

    /** Enough to generate a block. */
    ghost predicate Engine()
      reads this
    {
      OverBytes(prf) && |key| == prf.stateBytes && buffer.Length == MAX_OUTPUT_LEN && blockCounter < COUNTER_SPAN
    }

    /** Every state between two calls: the counter is back at 0, the position is inside the
        block, the key bytes are gone from the buffer, and what was not handed out is the
        untouched end of the last stirred block, whose start is the key. */
    ghost predicate Ready()
      reads this, buffer
    {
      && Engine()
      && blockCounter == 0
      && prf.stateBytes <= pos < prf.outputLen
      && (forall i | 0 <= i < prf.stateBytes :: buffer[i] == 0)
      && |block| == prf.outputLen
      && key == block[..prf.stateBytes]
      && buffer[pos..prf.outputLen] == block[pos..]
    }

    predicate IsLive()
      reads this
    {
      magic == Magic(address)
    }

    /** Live means that the magic number is the basis, once the address is taken out of it. */
    lemma LiveIff()
      ensures IsLive() <==> magic ^ address == 0x11b07734
    {
      hide Magic;
      MagicTest(magic, address);
    }

    ghost predicate Valid()
      reads this, buffer
    {
      buffer.Length == MAX_OUTPUT_LEN && OverBytes(prf) && (IsLive() ==> Ready())
    }

    /** The block in the buffer, with what has been cleared of it. */
    ghost function Front(): (b: seq<byte>)
      reads this, buffer
      requires Engine()
      ensures |b| == prf.outputLen
    {
      buffer[..prf.outputLen]
    }

    ghost function Core(): (s: State<byte>)
      reads this, buffer
      requires Ready()
      ensures Quiet(prf, s)
    {
      State(key, buffer[pos..prf.outputLen])
    }

    ghost function Abstract(): (s: Session<byte>)
      reads this, buffer
      requires Valid()
      ensures Sound(prf, s)
    {
      if IsLive() then Live(pid, Core()) else Dead
    }

    // ----- blocks

    method NextBlockNoRekey()
      requires Engine()
      modifies `blockCounter, buffer
      ensures Engine()
      ensures buffer[..prf.outputLen] == prf.Block(key, old(blockCounter))
      ensures buffer[prf.outputLen..] == old(buffer[prf.outputLen..])
      ensures blockCounter == (old(blockCounter) + 1) % COUNTER_SPAN
    {
      var b := prf.fn(key, blockCounter);
      assert b == prf.Block(key, blockCounter);
      forall i | 0 <= i < prf.outputLen { buffer[i] := b[i]; }
      blockCounter := (blockCounter + 1) % COUNTER_SPAN;
    }

    method NextBlock()
      requires Engine()
      modifies `blockCounter, `key, `pos, `block, buffer
      ensures Ready() && pos == prf.stateBytes && Front() == ClearedTo(block, prf.stateBytes)
      ensures block == prf.Block(old(key), old(blockCounter))
      ensures Core() == StirAt(prf, old(key), old(blockCounter))
    {
      hide Xor, Zeros;
      NextBlockNoRekey();
      ghost var full := buffer[..];
      block := buffer[..prf.outputLen];
      key := buffer[..prf.stateBytes];
      assert key == block[..prf.stateBytes];
      ClearBuf(0, prf.stateBytes);
      blockCounter := 0;
      pos := prf.stateBytes;
      KeyCleared(full, buffer[..], prf.stateBytes, prf.outputLen);
    }

    // ----- byte requests

    method CopyOut(from: nat, out: array<byte>, off: nat, n: nat)
      requires from + n <= buffer.Length && off + n <= out.Length && out != buffer
      modifies out
      ensures Wrote(old(out[..]), out[..], off, buffer[from..from + n])
    {
      forall i | 0 <= i < n { out[off + i] := buffer[from + i]; }
      assert out[off..off + n] == buffer[from..from + n];
    }

    method ClearBuf(from: nat, n: nat)
      requires from + n <= buffer.Length
      modifies buffer
      ensures Wrote(old(buffer[..]), buffer[..], from, Zeros(n))
    {
      forall i | 0 <= i < n { buffer[from + i] := 0; }
      assert buffer[from..from + n] == Zeros(n);
    }

    /** Step over n bytes that have been given out, clearing n bytes from `clear` on. */
    method Advance(n: nat, clear: nat)
      requires Ready() && pos + n < prf.outputLen && clear <= pos
      modifies `pos, buffer
      ensures Ready() && pos == old(pos) + n
      ensures Core() == Take(old(Core()), n).state
      ensures buffer[..] == old(buffer[..clear]) + Zeros(n) + old(buffer[clear + n..])
    {
      ghost var rest := buffer[pos..prf.outputLen];
      ClearBuf(clear, n);
      pos := pos + n;
      assert buffer[pos..prf.outputLen] == rest[n..];
      assert block[pos..] == rest[n..];
    }

    method RandBytesFromBuf(out: array<byte>, off: nat, n: nat)
      requires Ready() && out != buffer && off + n <= out.Length
      requires n + pos < 2 * prf.outputLen - prf.stateBytes
      modifies `blockCounter, `key, `pos, `block, buffer, out
      ensures Ready()
      ensures Core() == FromBuf(prf, old(Core()), n).state
      ensures Wrote(old(out[..]), out[..], off, FromBuf(prf, old(Core()), n).out)
      ensures Front() == FromBufFront(prf.stateBytes, old(pos), n, old(Front()), block)
      ensures n + old(pos) < prf.outputLen ==> block == old(block)
    {
      hide StirAt, Wrote, OverBytes, FromBuf;
      if n + pos < prf.outputLen {
        FitsInBuffer(prf, Core(), n);
        ghost var b := buffer[..];
        TakeHere(out, off, n);
        ClearHere(b, buffer[..], prf.outputLen, old(pos), n);
      } else {
        TakeAcross(out, off, n);
      }
    }

    /** A request that uses up the buffer: what is left of it, a refill, and the rest from there. */
    method TakeAcross(out: array<byte>, off: nat, n: nat)
      requires Ready() && out != buffer && off + n <= out.Length
      requires prf.outputLen <= n + pos < 2 * prf.outputLen - prf.stateBytes
      modifies `blockCounter, `key, `pos, `block, buffer, out
      ensures Ready()
      ensures Core() == FromBuf(prf, old(Core()), n).state
      ensures Wrote(old(out[..]), out[..], off, FromBuf(prf, old(Core()), n).out)
      ensures ClearedFor(n - (prf.outputLen - old(pos)))
    {
      hide StirAt, Wrote, OverBytes, ClearedFor, Xor, FromBuf, Take;
      UsesUpBuffer(prf, Core(), n);
      var cpy := prf.outputLen - pos;
      ghost var a, out0 := Core().buf, out[..];
      CopyOut(pos, out, off, cpy);
      ghost var out1 := out[..];
      StirAndTake(out, off + cpy, n - cpy);
      WroteTwice(out0, out1, out[..], off, a, Take(StirAt(prf, old(key), 0), n - cpy).out);
    }

    method TakeHere(out: array<byte>, off: nat, n: nat)
      requires Ready() && out != buffer && off + n <= out.Length && n + pos < prf.outputLen
      modifies `pos, buffer, out
      ensures Ready()
      ensures Core() == Take(old(Core()), n).state
      ensures Wrote(old(out[..]), out[..], off, Take(old(Core()), n).out)
      ensures Wrote(old(buffer[..]), buffer[..], old(pos), Zeros(n))
    {
      FrontOfRest(buffer[..], pos, n, prf.outputLen);
      CopyOut(pos, out, off, n);
      Advance(n, pos);
    }

    /** The second half of a request that uses up the buffer. */
    method StirAndTake(out: array<byte>, off: nat, n: nat)
      requires Engine() && blockCounter == 0 && out != buffer && off + n <= out.Length
      requires prf.stateBytes + n < prf.outputLen
      modifies `blockCounter, `key, `pos, `block, buffer, out
      ensures Ready()
      ensures Core() == Take(StirAt(prf, old(key), 0), n).state
      ensures Wrote(old(out[..]), out[..], off, Take(StirAt(prf, old(key), 0), n).out)
      ensures ClearedFor(n)
    {
      hide StirAt, Wrote, OverBytes, Take, ClearedFor;
      NextBlock();
      TakeFresh(out, off, n);
    }

    /** The first n bytes of a new block; what is cleared is counted from the start of the buffer. */
    method TakeFresh(out: array<byte>, off: nat, n: nat)
      requires Ready() && out != buffer && off + n <= out.Length
      requires pos == prf.stateBytes && pos + n < prf.outputLen && Front() == ClearedTo(block, prf.stateBytes)
      modifies `pos, buffer, out
      ensures Ready() && Core() == Take(old(Core()), n).state
      ensures Wrote(old(out[..]), out[..], off, Take(old(Core()), n).out)
      ensures ClearedFor(n)
    {
      hide Wrote, Xor, ClearedTo, ClearedFor;
      FrontOfRest(buffer[..], pos, n, prf.outputLen);
      CopyOut(pos, out, off, n);
      AdvanceFresh(n);
    }

    /** Step over n bytes of a new block that have been given out, clearing from the start of the buffer. */
    method AdvanceFresh(n: nat)
      requires Ready() && pos == prf.stateBytes && pos + n < prf.outputLen
      requires Front() == ClearedTo(block, prf.stateBytes)
      modifies `pos, buffer
      ensures Ready() && pos == old(pos) + n && Core() == Take(old(Core()), n).state && ClearedFor(n)
    {
      hide Zeros, Xor, ClearedTo, Max;
      ghost var full := buffer[..];
      Advance(n, 0);
      ClearFront(block, full, buffer[..], prf.stateBytes, n);
    }

    /** What the buffer holds after n bytes of a new block were given out: the key bytes and the
        first n bytes are cleared, counted from the start of the buffer. */
    ghost predicate ClearedFor(n: nat)
      reads this, buffer
    {
      && Engine() && |block| == prf.outputLen && prf.stateBytes <= |block| && n <= |block|
      && Front() == ClearedTo(block, Max(prf.stateBytes, n))
    }

    /** The loop of a large request: hand out whole blocks, without stirring, while they fit. */
    method WholeBlocks(out: array<byte>, off: nat, n: nat) returns (at: nat, left: nat, ghost q: nat)
      requires Engine() && blockCounter == 0 && out != buffer && off + n <= out.Length
      modifies `blockCounter, buffer, out
      ensures Engine() && blockCounter == q % COUNTER_SPAN
      ensures left < prf.outputLen && at + left == off + n && at == off + |Raw(prf, key, q)|
      ensures Wrote(old(out[..]), out[..], off, Raw(prf, key, q))
    {
      hide Wrote, Raw, Xor, BlocksLength;
      at, left, q := off, n, 0;
      ghost var out0 := out[..];
      WroteNothing(out0, off);
      RawStartsEmpty(prf, key);
      while left >= prf.outputLen
        invariant Engine() && blockCounter == q % COUNTER_SPAN
        invariant at == off + |Raw(prf, key, q)| && at + left == off + n
        invariant Wrote(out0, out[..], off, Raw(prf, key, q))
        decreases left
      {
        ghost var before, raw := out[..], Raw(prf, key, q);
        OneBlock(out, at, q);
        RawEnds(prf, key, q);
        WroteTwice(out0, before, out[..], off, raw, prf.Block(key, q));
        at := at + prf.outputLen;
        left := left - prf.outputLen;
        q := q + 1;
      }
    }

    /** A whole block, handed out as it is. */
    method OneBlock(out: array<byte>, at: nat, ghost q: nat)
      requires Engine() && blockCounter == q % COUNTER_SPAN && out != buffer && at + prf.outputLen <= out.Length
      modifies `blockCounter, buffer, out
      ensures Engine() && blockCounter == (q + 1) % COUNTER_SPAN
      ensures Wrote(old(out[..]), out[..], at, prf.Block(key, q))
    {
      hide Wrote, Xor;
      WrappedCounter(prf, key, q);
      NextBlockNoRekey();
      CopyOut(0, out, at, prf.outputLen);
    }

    method RandBytesImpl(out: array<byte>, off: nat, n: nat)
      requires Ready() && out != buffer && off + n <= out.Length
      modifies `blockCounter, `key, `pos, `block, buffer, out
      ensures Ready()
      ensures Core() == GetBytes(prf, old(Core()), n).state
      ensures Wrote(old(out[..]), out[..], off, GetBytes(prf, old(Core()), n).out)
      ensures pos == FinalPos(prf.stateBytes, prf.outputLen, old(pos), n)
      ensures Front() == RequestFront(prf.stateBytes, old(pos), n, old(Front()), block)
    {
      hide GetBytes, FromBuf, StirAt, Raw, Wrote, Xor, FromBufFront, RequestFront, FinalPos;
      PositionsOfMachine(prf, Core(), n, 0);
      if n + pos < prf.outputLen * 2 - prf.stateBytes - 1 {
        SmallRequest(prf, Core(), n);
        RandBytesFromBuf(out, off, n);
        SmallFront(prf.stateBytes, old(pos), n, old(Front()), block);
      } else {
        ghost var core := Core();
        ghost var q, left := LargeBytes(out, off, n);
        LargeFront(prf, core, n, q, left, old(Front()), block);
      }
    }

    /** A request that is not small: the buffer, whole blocks, and the rest after a Stir. */
    method LargeBytes(out: array<byte>, off: nat, n: nat) returns (ghost q: nat, ghost left: nat)
      requires Ready() && out != buffer && off + n <= out.Length
      requires n + pos >= prf.outputLen * 2 - prf.stateBytes - 1
      modifies `blockCounter, `key, `pos, `block, buffer, out
      ensures Ready()
      ensures Core() == GetBytes(prf, old(Core()), n).state
      ensures Wrote(old(out[..]), out[..], off, GetBytes(prf, old(Core()), n).out)
      ensures left < prf.outputLen && n == |old(Core()).buf| + |Raw(prf, old(key), q)| + left
      ensures Front() == FromBufFront(prf.stateBytes, prf.stateBytes, left, ClearedTo(block, prf.stateBytes), block)
    {
      hide GetBytes, FromBuf, StirAt, Raw, Wrote, Xor, FromBufFront, ClearedTo;
      ghost var core, out0 := Core(), out[..];
      var cpy := prf.outputLen - pos;
      CopyOut(pos, out, off, cpy);
      ghost var out1 := out[..];
      var at, rest;
      at, rest, q := WholeBlocks(out, off + cpy, n - cpy);
      left := rest;
      LargeRequest(prf, core, n, q, left);
      ghost var out2, raw := out[..], Raw(prf, core.key, q);
      StirLast(out, at, rest, q);
      WroteThrice(out0, out1, out2, out[..], off, core.buf, raw, FromBuf(prf, StirAt(prf, core.key, q), left).out);
    }

    /** The end of a large request: Stir at the counter reached, then answer the rest. */
    method StirLast(out: array<byte>, at: nat, left: nat, ghost q: nat)
      requires Engine() && blockCounter == q % COUNTER_SPAN
      requires out != buffer && left < prf.outputLen && at + left <= out.Length
      modifies `blockCounter, `key, `pos, `block, buffer, out
      ensures Ready()
      ensures Core() == FromBuf(prf, StirAt(prf, old(key), q), left).state
      ensures Wrote(old(out[..]), out[..], at, FromBuf(prf, StirAt(prf, old(key), q), left).out)
      ensures Front() == FromBufFront(prf.stateBytes, prf.stateBytes, left, ClearedTo(block, prf.stateBytes), block)
    {
      hide FromBuf, StirAt, Wrote, Xor, FromBufFront;
      WrappedCounter(prf, key, q);
      NextBlock();
      ghost var front := Front();
      RandBytesFromBuf(out, at, left);
      if left + prf.stateBytes >= prf.outputLen {
        FrontForgets(prf.stateBytes, prf.stateBytes, left, front, ClearedTo(block, prf.stateBytes), block);
      }
    }

    // ----- integers

    /** The k bytes of an integer: never across two blocks. */
    method RandInt(k: nat) returns (bytes: seq<byte>)
      requires Ready() && k <= 8
      modifies `blockCounter, `key, `pos, `block, buffer
      ensures Ready()
      ensures Core() == Tiny(prf, old(Core()), k).state && bytes == Tiny(prf, old(Core()), k).out
      ensures pos == DrawPos(prf.stateBytes, prf.outputLen, old(pos), k)
      ensures Front() == DrawFront(prf.stateBytes, old(pos), k, old(Front()), block)
    {
      hide Xor, StirAt, Tiny, Take, DrawFront, ClearedTo, Zeros;
      ghost var front := Front();
      TinyCases(prf, Core(), k);
      if k + pos <= prf.outputLen {
        if k + pos == prf.outputLen {
          bytes := IntLast();
        } else {
          bytes := IntHere(k);
        }
      } else {
        NextBlock();
        bytes := IntFresh(k);
      }
      DrawFrontCases(prf.stateBytes, old(pos), k, front, block);
    }

    /** An integer from the buffer. */
    method IntHere(k: nat) returns (bytes: seq<byte>)
      requires Ready() && k + pos < prf.outputLen
      modifies `pos, buffer
      ensures Ready() && pos == old(pos) + k
      ensures Core() == Take(old(Core()), k).state && bytes == Take(old(Core()), k).out
      ensures Front() == old(Front())[..old(pos)] + Zeros(k) + old(Front())[old(pos) + k..]
    {
      hide Zeros, Xor;
      ghost var b := buffer[..];
      bytes := buffer[pos..pos + k];
      FrontOfRest(buffer[..], pos, k, prf.outputLen);
      Advance(k, pos);
      ClearHere(b, buffer[..], prf.outputLen, old(pos), k);
    }

    /** An integer that uses up the buffer, which is refilled at once. */
    method IntLast() returns (bytes: seq<byte>)
      requires Ready()
      modifies `blockCounter, `key, `pos, `block, buffer
      ensures Ready() && pos == prf.stateBytes && Front() == ClearedTo(block, prf.stateBytes)
      ensures Core() == StirAt(prf, old(key), 0) && bytes == old(Core()).buf
    {
      hide Zeros, Xor, StirAt, ClearedTo;
      bytes := buffer[pos..prf.outputLen];
      ClearBuf(pos, prf.outputLen - pos);
      pos := prf.outputLen;
      NextBlock();
    }

    /** The first k bytes of a new block; what is cleared is counted from the start of the buffer. */
    method IntFresh(k: nat) returns (bytes: seq<byte>)
      requires Ready() && pos == prf.stateBytes && pos + k < prf.outputLen
      requires Front() == ClearedTo(block, prf.stateBytes)
      modifies `pos, buffer
      ensures Ready() && pos == old(pos) + k
      ensures Core() == Take(old(Core()), k).state && bytes == Take(old(Core()), k).out
      ensures ClearedFor(k)
    {
      hide Xor, ClearedTo, ClearedFor;
      bytes := buffer[pos..pos + k];
      FrontOfRest(buffer[..], pos, k, prf.outputLen);
      AdvanceFresh(k);
    }

    // ----- seeding

    /** The loop of add-seed and the Stir after it. */
    method MixIn(seed: seq<byte>)
      requires Engine() && blockCounter == 0
      modifies `blockCounter, `key, `pos, `block, buffer
      ensures Ready()
      ensures Core() == AddSeed(prf, old(key), seed)
    {
      hide MixKey, SeedKey, Xor, StirAt;
      var rest := seed;
      while rest != []
        invariant Engine() && blockCounter == 0
        invariant SeedKey(prf, key, rest) == SeedKey(prf, old(key), seed)
        decreases |rest|
      {
        var m := if |rest| > prf.stateBytes / 2 then prf.stateBytes / 2 else |rest|;
        assert rest == rest[..m] + rest[m..];
        SeedStep(prf, key, rest[..m], rest[m..]);
        MixChunk(rest[..m]);
        rest := rest[m..];
      }
      NoSeed(prf, key);
      NextBlock();
    }

    /** Make a new key from a block and a chunk of seed. */
    method MixChunk(chunk: seq<byte>)
      requires Engine() && blockCounter == 0 && |chunk| <= prf.stateBytes / 2
      modifies `blockCounter, `key, buffer
      ensures Engine() && blockCounter == 0 && key == MixKey(prf, old(key), chunk)
      ensures forall i | 0 <= i < |chunk| ::
                W.NatOf(key[i]) == W.NatXor(W.NatOf(prf.Block(old(key), 0)[i]), W.NatOf(chunk[i]))
      ensures forall i | |chunk| <= i < prf.stateBytes :: key[i] == prf.Block(old(key), 0)[i]
    {
      hide W.NatOf, W.NatXor, Xor;
      NextBlockNoRekey();
      forall i | 0 <= i < |chunk| { buffer[i] := prf.mix(buffer[i], chunk[i]); }
      key := buffer[..prf.stateBytes];
      assert key == MixKey(prf, old(key), chunk);
      MixedBytes(prf, old(key), chunk);
      blockCounter := 0;
    }

    /** What an entropy collection for this state gives, when the sources do what `table` says. */
    ghost function Drawn(table: seq<Source>): (r: Draw<byte>)
      reads this
    {
      Collect(table, config, {}, prf.stateBytes, BufSize(table, prf.stateBytes))
    }

    /** Collect from the entropy sources into a buffer of the advertised size. */
    method Gather(table: seq<Source>) returns (err: int, entropy: seq<byte>, flags: Mask)
      requires Honest(table, prf.stateBytes)
      ensures match Drawn(table)
              case NoDraw(e) => err == e && 0 < err < 0x1000
              case Got(b, f) =>
                if |b| < prf.stateBytes then err == ERR_ACCESS_STRONG_RNG else err == 0 && entropy == b && flags == f
    {
      hide Collect;
      var size := BufSize(table, prf.stateBytes);
      var buf := new byte[size];
      var n;
      entropy := [];
      CollectIff(table, config, {}, prf.stateBytes, size);
      err, n, flags := GetEntropy(table, config, {}, buf, prf.stateBytes);
      if err != 0 { return; }
      if n < prf.stateBytes { return ERR_ACCESS_STRONG_RNG, [], flags; }
      entropy := buf[..n];
    }

    /** Replace the key by an entropy draw; the old state stays when the draw fails. */
    method Reseed(table: seq<Source>) returns (err: int)
      requires OverBytes(prf) && buffer.Length == MAX_OUTPUT_LEN && blockCounter == 0
      requires Honest(table, prf.stateBytes)
      modifies `blockCounter, `key, `pos, `block, `entropySrcFlags, `lastEntropyFlags, buffer
      ensures match FromDraw(prf, Drawn(table))
              case NotSeeded(e) => err == e && 0 < err < 0x1000 && old(Memory()) == Memory()
              case Fresh(core) =>
                err == 0 && Ready() && Core() == core && entropySrcFlags == lastEntropyFlags == Drawn(table).flags
    {
      hide AddSeed, Collect, StirAt, SeedKey;
      var entropy, flags;
      err, entropy, flags := Gather(table);
      if err != 0 { return; }
      key := entropy[..prf.stateBytes];
      if |entropy| > prf.stateBytes {
        MixIn(entropy[prf.stateBytes..]);
      }
      entropySrcFlags, lastEntropyFlags := flags, flags;
      blockCounter := 0;
      NextBlock();
    }

    /** No key, no output and no flag is left in memory. */
    ghost predicate Cleared()
      reads this, buffer
    {
      && buffer[..] == Zeros(buffer.Length) && key == [] && magic == 0 && blockCounter == pos == 0 && pid == 0
      && config == Config({}, {}) && entropySrcFlags == lastEntropyFlags == {}
    }

    /** Set all of the state to zero; the PRF is then a placeholder that nothing reads. */
    method ClearAll()
      requires Aligned(address)
      modifies `key, `blockCounter, `magic, `pos, `pid, `config, `entropySrcFlags, `lastEntropyFlags, buffer
      ensures Cleared() && !IsLive()
    {
      ClearBuf(0, buffer.Length);
      key, blockCounter, magic, pos, pid := [], 0, 0, 0, 0;
      config, entropySrcFlags, lastEntropyFlags := Config({}, {}), {}, {};
      ClearedIsDead(address);
    }

    /** Initialization.  The caller supplies the outcome of making the lock and of the entropy
        sources, and the process it runs in. */
    method Initialize(newPrf: Prf<byte>, newConfig: Config, lockMade: bool, self: int, table: seq<Source>)
      returns (err: int)
      requires Valid() && (newPrf.PassesShapeTest() ==> OverBytes(newPrf))
      requires Honest(table, newPrf.stateBytes)
      modifies this, buffer
      ensures Valid()
      ensures !Aligned(address) ==> err == ERR_STATE_ALIGNMENT && Abstract() == old(Abstract())
      ensures Aligned(address) && !lockMade ==> err == ERR_LOCK_INIT && Abstract() == Dead
      ensures Aligned(address) && lockMade && !newPrf.PassesShapeTest() ==> err == ERR_INTERNAL && Abstract() == Dead
      ensures Aligned(address) && lockMade && newPrf.PassesShapeTest() ==>
                && prf == newPrf && config == newConfig
                && var r := Init(newPrf, Drawn(table), self);
                   Abstract() == r.session && (r.outcome == if err == 0 then Done([]) else Refused(err))
    {
      hide Magic, Aligned, Xor, Zeros, Collect, Construct;
      if !Aligned(address) { return ERR_STATE_ALIGNMENT; }
      ClearAll();
      if !lockMade { return ERR_LOCK_INIT; }
      if newPrf.stateBytes > MAX_STATE_BYTES || newPrf.stateBytes > newPrf.outputLen
         || newPrf.outputLen > MAX_OUTPUT_LEN {
        return ERR_INTERNAL;
      }
      config := newConfig;
      prf := newPrf;
      err := Reseed(table);
      if err != 0 { return; }
      magic := Magic(address);
      pid := self;
    }

    // ----- the calls

    /** The checks before a request; a nonzero result is the code given to the fatal-error handler. */
    method RandCheck(self: int, table: seq<Source>) returns (fatal: int)
      requires Valid() && Honest(table, prf.stateBytes)
      modifies `blockCounter, `key, `pos, `block, `entropySrcFlags, `lastEntropyFlags, `pid, buffer
      ensures Valid()
      ensures var c := Check(prf, old(Abstract()), self, Drawn(table));
              Abstract() == c.session && (c.outcome == if fatal == 0 then Done([]) else Refused(fatal))
      ensures fatal != 0 ==> old(Memory()) == Memory() && pid == old(pid)
    {
      hide Magic, Xor, Collect, Construct;
      if !IsLive() { return ERR_STATE_INIT; }
      fatal := 0;
      if pid != self {
        var err := Reseed(table);
        if err != 0 { return ERR_FLAG_POSTFORK_RESEED + err; }
        pid := self;
      }
    }

    method RandBytes(out: array<byte>, n: nat, self: int, table: seq<Source>) returns (fatal: int)
      requires Valid() && Honest(table, prf.stateBytes) && out != buffer && n <= out.Length
      modifies `blockCounter, `key, `pos, `block, `entropySrcFlags, `lastEntropyFlags, `pid, buffer, out
      ensures Valid()
      ensures var r := Rand(prf, old(Abstract()), Bytes(n), self, Drawn(table));
              && Abstract() == r.session
              && match r.outcome
                 case Refused(err) => fatal == err && out[..] == old(out[..])
                 case Done(bytes) => fatal == 0 && out[..n] == bytes && out[n..] == old(out[n..])
    {
      hide Magic, Xor, Collect, Check, GetBytes;
      fatal := RandCheck(self, table);
      if fatal == 0 {
        RandBytesImpl(out, 0, n);
      }
    }

    /** An integer of k bytes; a refused call returns 0. */
    method RandInteger(k: nat, self: int, table: seq<Source>) returns (fatal: int, value: nat)
      requires Valid() && Honest(table, prf.stateBytes) && (k == 4 || k == 8)
      modifies `blockCounter, `key, `pos, `block, `entropySrcFlags, `lastEntropyFlags, `pid, buffer
      ensures Valid()
      ensures var r := Rand(prf, old(Abstract()), Int(k), self, Drawn(table));
              && Abstract() == r.session
              && match r.outcome
                 case Refused(err) => fatal == err && value == 0
                 case Done(bytes) => fatal == 0 && value == Value(bytes)
    {
      hide Magic, Xor, Collect, Check, Value, Tiny;
      fatal := RandCheck(self, table);
      value := 0;
      if fatal == 0 {
        var bytes := RandInt(k);
        value := Value(bytes);
      }
    }

    method AddSeedCall(seed: seq<byte>, table: seq<Source>) returns (err: int)
      requires Valid() && Honest(table, prf.stateBytes)
      modifies `blockCounter, `key, `pos, `block, `entropySrcFlags, `lastEntropyFlags, buffer
      ensures Valid()
      ensures var r := Seed(prf, old(Abstract()), seed, Drawn(table));
              Abstract() == r.session && (r.outcome == if err == 0 then Done([]) else Refused(err))
      ensures err != 0 ==> old(Memory()) == Memory()
      ensures err == 0 ==> lastEntropyFlags == if seed == [] then Drawn(table).flags else {}
      ensures err == 0 ==> entropySrcFlags == old(entropySrcFlags) + lastEntropyFlags
    {
      hide AddSeed, Collect, StirAt, SeedKey, Magic, Xor;
      if !IsLive() { return ERR_STATE_INIT; }
      var material, flags := seed, {};
      if seed == [] {
        err, material, flags := Gather(table);
        if err != 0 { return; }
      }
      MixIn(material);
      entropySrcFlags := entropySrcFlags + flags;
      lastEntropyFlags := flags;
      err := 0;
    }

    method Wipe()
      requires buffer.Length == MAX_OUTPUT_LEN && Aligned(address) && OverBytes(prf)
      modifies this, buffer
      ensures Valid() && Abstract() == Dead && Cleared()
    {
      ClearAll();
    }

    /** A draw from 0..upper.  The loop ends because some draw within `tries` is accepted, or
        because the call is refused: then every integer reads 0, and 0 is accepted. */
    method RandRange(k: nat, upper: nat, self: int, table: seq<Source>, ghost tries: nat)
      returns (fatal: int, value: nat)
      requires Valid() && Honest(table, prf.stateBytes) && (k == 4 || k == 8) && upper < Span(k)
      requires var c := Check(prf, Abstract(), self, Drawn(table));
               c.outcome.Done? ==> Attempt(prf, c.session.core, k, upper, tries).Picked?
      modifies `blockCounter, `key, `pos, `block, `entropySrcFlags, `lastEntropyFlags, `pid, buffer
      ensures Valid() && value <= upper
      ensures var c := Check(prf, old(Abstract()), self, Drawn(table));
              match c.outcome
              case Refused(err) => fatal == err && value == 0 && Abstract() == old(Abstract())
              case Done(_) =>
                fatal == 0 && var r := Attempt(prf, c.session.core, k, upper, tries);
                value == r.value && Abstract() == Live(self, r.state)
    {
      hide Magic, Check, Rand, Attempt, Divisor, Reduce, Span, Value, Collect;
      ghost var c := Check(prf, Abstract(), self, Drawn(table));
      ghost var left := tries;
      var divisor := Divisor(Span(k), upper);
      while true
        invariant Valid() && prf == old(prf) && config == old(config)
        invariant Check(prf, Abstract(), self, Drawn(table)).outcome == c.outcome
        invariant c.outcome.Refused? ==> Abstract() == old(Abstract())
        invariant c.outcome.Done? ==>
                    Attempt(prf, Check(prf, Abstract(), self, Drawn(table)).session.core, k, upper, left)
                    == Attempt(prf, c.session.core, k, upper, tries)
        decreases left
      {
        RangeRound(prf, Abstract(), Drawn(table), k, upper, self, left);
        var w;
        fatal, w := RandInteger(k, self, table);
        value := w / divisor;
        ReduceIs(Span(k), upper, w);
        if value <= upper { return; }
        left := left - 1;
      }
    }

    /** All that a request may change. */
    ghost function Memory(): (r: Snapshot)
      reads this, buffer
    {
      Snapshot(buffer[..], key, blockCounter, pos, block, entropySrcFlags, lastEntropyFlags)
    }
  }

  datatype Snapshot = Snapshot(buffer: seq<byte>, key: seq<byte>, blockCounter: nat, pos: nat, block: seq<byte>,
                               src: Mask, last: Mask)

  /** A counter that has wrapped selects the same block. */
  lemma WrappedCounter(prf: Prf<byte>, k: seq<byte>, q: nat)
    requires prf.WellFormed() && |k| == prf.stateBytes
    ensures prf.Block(k, q % COUNTER_SPAN) == prf.Block(k, q)
    ensures StirAt(prf, k, q % COUNTER_SPAN) == StirAt(prf, k, q)
    ensures (q % COUNTER_SPAN + 1) % COUNTER_SPAN == (q + 1) % COUNTER_SPAN
  {
  }
}
