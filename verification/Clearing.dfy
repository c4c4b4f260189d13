/** Positions in the buffer, and what is left in it of the bytes handed out (src/ottery.c:631-687,
    723-744).

    A request clears the bytes it hands out, but after a refill the C counts from the start of the
    buffer instead of the position, so some of the bytes it has just handed out stay. */
module Clearing {
  import opened Prf
  import opened Machine
  import opened Arithmetic

  // ----- positions

  /** The position after rand_bytes_from_buf. */
  function FromBufPos(sb: nat, ol: nat, pos: nat, n: nat): (p: nat)
    requires sb < ol && pos < ol
  {
    if n + pos < ol then n + pos else sb + (n - (ol - pos))
  }

  /** The position after a request of n bytes at position pos. */
  function FinalPos(sb: nat, ol: nat, pos: nat, n: nat): (p: nat)
    requires sb <= pos < ol
  {
    if n + pos < ol * 2 - sb - 1 then FromBufPos(sb, ol, pos, n)
    else FromBufPos(sb, ol, sb, (n - (ol - pos)) % ol)
  }

  /** The position after an integer draw of k bytes. */
  function DrawPos(sb: nat, ol: nat, pos: nat, k: nat): (p: nat)
    requires sb <= pos < ol
  {
    if k + pos < ol then k + pos else if k + pos == ol then sb else sb + k
  }

  /** These are the positions of the machine's buffers. */
  lemma PositionsOfMachine<T(!new)>(prf: Prf<T>, s: State<T>, n: nat, k: nat)
    requires Quiet(prf, s) && k <= 8
    ensures var pos := prf.outputLen - |s.buf|;
            && prf.outputLen - |GetBytes(prf, s, n).state.buf| == FinalPos(prf.stateBytes, prf.outputLen, pos, n)
            && prf.outputLen - |Tiny(prf, s, k).state.buf| == DrawPos(prf.stateBytes, prf.outputLen, pos, k)
  {
  }

  /** Some position is inside the block after a Stir. */
  predicate StirStaysInside(sb: nat, ol: nat) { sb < ol }

  /** The assertion of rand_bytes_from_buf never fails. */
  ghost predicate RequestsStayInside(sb: nat, ol: nat) {
    forall pos: nat, n: nat | sb <= pos < ol :: FinalPos(sb, ol, pos, n) < ol
  }

  ghost predicate DrawsStayInside(sb: nat, ol: nat) {
    forall pos: nat, wide: bool | sb <= pos < ol :: DrawPos(sb, ol, pos, Width(wide)) < ol
  }

  /** Add-seed takes something from every seed that is not empty. */
  ghost predicate SeedLoopAdvances(sb: nat) {
    forall n: nat | n > 0 :: ChunkLength(sb, n) > 0
  }

  /** The shape test made at initialization lets through PRFs for which the paths do not work;
      `Dimensions` is exactly what they need. */
  lemma DimensionsAreNeeded(sb: nat, ol: nat)
    ensures Dimensions(sb, ol) <==>
              StirStaysInside(sb, ol) && RequestsStayInside(sb, ol) && DrawsStayInside(sb, ol) && SeedLoopAdvances(sb)
  {
    if sb < 2 {
      assert ChunkLength(sb, 1) == 0;
    } else if sb < ol <= sb + 8 {
      assert DrawPos(sb, ol, ol - 1, Width(true)) == sb + 8;
    } else if sb + 8 < ol < 2 * sb {
      var n := (ol - sb) + (ol - 1);
      DivUnique(0, ol, ol - 1);
      assert FinalPos(sb, ol, sb, n) == 2 * sb - 1 >= ol;
    } else if Dimensions(sb, ol) {
      forall pos: nat, n: nat | sb <= pos < ol ensures FinalPos(sb, ol, pos, n) < ol {
        if n + pos >= ol * 2 - sb - 1 { DivMod(n - (ol - pos), ol); }
      }
    }
  }

  /** A PRF with a 60-byte key and 100-byte blocks passes the test and fails the assertion. */
  lemma ShapeTestIsTooWeak(fn: (seq<byte>, nat) -> seq<byte>)
    ensures Prf(60, 100, fn, Xor).PassesShapeTest()
    ensures FinalPos(60, 100, 60, 139) == 119
  {
  }

  // ----- contents

  function Max(a: nat, b: nat): (m: nat) { if a < b then b else a }

  function Min(a: nat, b: nat): (m: nat) { if a < b then a else b }

  /** A block whose first z bytes are cleared. */
  function ClearedTo(block: seq<byte>, z: nat): (b: seq<byte>)
    requires z <= |block|
    ensures |b| == |block|
  {
    Zeros(z) + block[z..]
  }

  /** The block in the buffer after rand_bytes_from_buf: `before` is the old one, `block` the last
      one stirred. */
  function FromBufFront(sb: nat, pos: nat, n: nat, before: seq<byte>, block: seq<byte>): (b: seq<byte>)
    requires 2 * sb <= |block| == |before| && pos < |block| && n + pos < 2 * |block| - sb
    ensures |b| == |block|
  {
    if n + pos < |block| then before[..pos] + Zeros(n) + before[pos + n..]
    else ClearedTo(block, Max(sb, n - (|block| - pos)))
  }

  /** The same after a request of any size. */
  function RequestFront(sb: nat, pos: nat, n: nat, before: seq<byte>, block: seq<byte>): (b: seq<byte>)
    requires sb <= pos < |block| == |before| && Dimensions(sb, |block|)
    ensures |b| == |block|
  {
    if n + pos < |block| * 2 - sb - 1 then FromBufFront(sb, pos, n, before, block)
    else
      var left := (n - (|block| - pos)) % |block|;
      DivMod(n - (|block| - pos), |block|);
      FromBufFront(sb, sb, left, ClearedTo(block, sb), block)
  }

  /** The same after an integer draw. */
  function DrawFront(sb: nat, pos: nat, k: nat, before: seq<byte>, block: seq<byte>): (b: seq<byte>)
    requires sb <= pos < |block| == |before| && Dimensions(sb, |block|) && k <= 8
    ensures |b| == |block|
  {
    if k + pos < |block| then before[..pos] + Zeros(k) + before[pos + k..]
    else if k + pos == |block| then ClearedTo(block, sb)
    else ClearedTo(block, Max(sb, k))
  }

  /** How many bytes rand_bytes_from_buf takes after refilling. */
  function FromBufWrapped(ol: nat, pos: nat, n: nat): (w: nat)
    requires pos < ol
  {
    if n + pos < ol then 0 else n - (ol - pos)
  }

  function Wrapped(sb: nat, ol: nat, pos: nat, n: nat): (w: nat)
    requires sb <= pos < ol
  {
    if n + pos < ol * 2 - sb - 1 then FromBufWrapped(ol, pos, n)
    else FromBufWrapped(ol, sb, (n - (ol - pos)) % ol)
  }

  function DrawWrapped(ol: nat, pos: nat, k: nat): (w: nat) { if k + pos <= ol then 0 else k }

  /** Where in the buffer the handed-out bytes of the last block begin: behind the key, unless the
      request was answered without a new block. */
  function Start(sb: nat, ol: nat, pos: nat, n: nat): (p: nat) { if n + pos < ol then pos else sb }

  predicate Gone(b: seq<byte>, from: nat, to: nat) {
    to <= |b| && forall i | from <= i < to :: b[i] == 0
  }

  /** Of the bytes handed out, the last `kept` are still in the buffer and the others are gone. */
  ghost predicate Keeps(b: seq<byte>, block: seq<byte>, from: nat, to: nat, kept: nat) {
    from + kept <= to <= |b| == |block| && Gone(b, from, to - kept) && b[to - kept..to] == block[to - kept..to]
  }

  /** After a request, exactly the last bytes taken after a refill remain, up to a key length. */
  lemma RequestKeeps(sb: nat, pos: nat, n: nat, before: seq<byte>, block: seq<byte>)
    requires sb <= pos < |block| == |before| && Dimensions(sb, |block|)
    ensures var ol := |block|;
            Keeps(RequestFront(sb, pos, n, before, block), block, Start(sb, ol, pos, n), FinalPos(sb, ol, pos, n),
                  Min(Wrapped(sb, ol, pos, n), sb))
  {
    var ol := |block|;
    if n + pos >= ol * 2 - sb - 1 {
      DivMod(n - (ol - pos), ol);
      FromBufKeeps(sb, sb, (n - (ol - pos)) % ol, ClearedTo(block, sb), block);
    } else {
      FromBufKeeps(sb, pos, n, before, block);
    }
  }

  lemma FromBufKeeps(sb: nat, pos: nat, n: nat, before: seq<byte>, block: seq<byte>)
    requires sb <= pos < |block| == |before| && Dimensions(sb, |block|) && n + pos < 2 * |block| - sb
    ensures var ol := |block|;
            Keeps(FromBufFront(sb, pos, n, before, block), block, Start(sb, ol, pos, n), FromBufPos(sb, ol, pos, n),
                  Min(FromBufWrapped(ol, pos, n), sb))
  {
    hide Keeps, ClearedTo;
    if n + pos < |block| {
      HereKeeps(before, block, pos, n);
    } else {
      ClearedKeeps(sb, block, n - (|block| - pos));
    }
  }

  /** After an integer draw that wraps, all of its bytes remain, up to a key length. */
  lemma DrawKeeps(sb: nat, pos: nat, k: nat, before: seq<byte>, block: seq<byte>)
    requires sb <= pos < |block| == |before| && Dimensions(sb, |block|) && k <= 8
    ensures var ol := |block|;
            Keeps(DrawFront(sb, pos, k, before, block), block, Start(sb, ol, pos, k), DrawPos(sb, ol, pos, k),
                  Min(DrawWrapped(ol, pos, k), sb))
  {
    hide Keeps, ClearedTo;
    if k + pos < |block| {
      HereKeeps(before, block, pos, k);
    } else {
      ClearedKeeps(sb, block, if k + pos == |block| then 0 else k);
    }
  }

  /** Cleared at the position: nothing is kept. */
  lemma HereKeeps(before: seq<byte>, block: seq<byte>, pos: nat, n: nat)
    requires |before| == |block| && pos + n <= |block|
    ensures Keeps(before[..pos] + Zeros(n) + before[pos + n..], block, pos, pos + n, 0)
  {
  }

  /** Cleared from the start of the buffer, after w bytes of a new block. */
  lemma ClearedKeeps(sb: nat, block: seq<byte>, w: nat)
    requires sb + w <= |block|
    ensures Keeps(ClearedTo(block, Max(sb, w)), block, sb, sb + w, Min(w, sb))
  {
    var z, kept := Max(sb, w), Min(w, sb);
    var b := ClearedTo(block, z);
    assert z == sb + w - kept;
    assert b[z..] == block[z..];
    assert b[z..sb + w] == b[z..][..kept] && block[z..sb + w] == block[z..][..kept];
  }

  function Ones(n: nat): (r: seq<byte>)
    ensures |r| == n && forall i | 0 <= i < n :: r[i] == 1
  {
    seq(n, _ => 1)
  }

  lemma KeptShows(b: seq<byte>, block: seq<byte>, from: nat, to: nat, kept: nat)
    requires Keeps(b, block, from, to, kept) && kept > 0 && block == Ones(|block|)
    ensures !Gone(b, from, to)
  {
    assert b[to - kept..to][kept - 1] == b[to - 1] == block[to - 1];
  }

  /** Whatever the blocks hold, all bytes handed out by a request are gone from the buffer if and only
      if it took none of them after refilling an exhausted buffer. */
  lemma RequestIsGoneIff(sb: nat, ol: nat, pos: nat, n: nat)
    requires sb <= pos < ol && Dimensions(sb, ol)
    ensures (forall before: seq<byte>, block: seq<byte> | |before| == |block| == ol ::
               Gone(RequestFront(sb, pos, n, before, block), Start(sb, ol, pos, n), FinalPos(sb, ol, pos, n)))
            <==> Wrapped(sb, ol, pos, n) == 0
  {
    hide RequestFront, FinalPos, Start, Wrapped;
    if Wrapped(sb, ol, pos, n) == 0 {
      forall before: seq<byte>, block: seq<byte> | |before| == |block| == ol
        ensures Gone(RequestFront(sb, pos, n, before, block), Start(sb, ol, pos, n), FinalPos(sb, ol, pos, n))
      {
        RequestKeeps(sb, pos, n, before, block);
      }
    } else {
      var block := Ones(ol);
      RequestKeeps(sb, pos, n, block, block);
      KeptShows(RequestFront(sb, pos, n, block, block), block, Start(sb, ol, pos, n), FinalPos(sb, ol, pos, n),
                Min(Wrapped(sb, ol, pos, n), sb));
    }
  }

  /** The bytes of an integer draw are gone if and only if it did not wrap. */
  lemma DrawIsGoneIff(sb: nat, ol: nat, pos: nat, k: nat)
    requires sb <= pos < ol && Dimensions(sb, ol) && 0 < k <= 8
    ensures (forall before: seq<byte>, block: seq<byte> | |before| == |block| == ol ::
               Gone(DrawFront(sb, pos, k, before, block), Start(sb, ol, pos, k), DrawPos(sb, ol, pos, k)))
            <==> k + pos <= ol
  {
    hide DrawFront, DrawPos, Start;
    if k + pos <= ol {
      forall before: seq<byte>, block: seq<byte> | |before| == |block| == ol
        ensures Gone(DrawFront(sb, pos, k, before, block), Start(sb, ol, pos, k), DrawPos(sb, ol, pos, k))
      {
        DrawKeeps(sb, pos, k, before, block);
      }
    } else {
      var block := Ones(ol);
      DrawKeeps(sb, pos, k, block, block);
      KeptShows(DrawFront(sb, pos, k, block, block), block, Start(sb, ol, pos, k), DrawPos(sb, ol, pos, k), Min(k, sb));
    }
  }

  /** With 40-byte keys and 1024-byte blocks: a request for 30 bytes at position 1000 leaves 6 of them,
      and a 4-byte integer drawn at position 1021 stays as a whole. */
  lemma BytesThatStay(before: seq<byte>, block: seq<byte>)
    requires |before| == |block| == 1024
    ensures RequestFront(40, 1000, 30, before, block)[40..46] == block[40..46] && FinalPos(40, 1024, 1000, 30) == 46
    ensures DrawFront(40, 1021, 4, before, block)[40..44] == block[40..44] && DrawPos(40, 1024, 1021, 4) == 44
  {
    RequestKeeps(40, 1000, 30, before, block);
    DrawKeeps(40, 1021, 4, before, block);
  }
}
