/** Over runs of requests and draws: which of the bytes handed out are still in the buffer. */
module Leftovers {
  import opened Prf
  import opened Machine
  import opened Arithmetic
  import opened Session
  import opened Clearing

  function Size(op: Op): (n: nat) {
    match op
    case Bytes(n) => n
    case Int(k) => k
  }

  /** Where the buffer stands: the position, and from where to where it still holds bytes handed out. */
  datatype Place = Place(pos: nat, lo: nat, hi: nat)

  /** After a Stir nothing of the new block has been handed out. */
  function Stirred(sb: nat): (p: Place) { Place(sb, sb, sb) }

  predicate PlaceOk(sb: nat, ol: nat, p: Place) { sb <= p.lo <= p.hi <= p.pos < ol }

  function UsePos(sb: nat, ol: nat, pos: nat, op: Op): (p: nat)
    requires sb <= pos < ol
  {
    if op.Bytes? then FinalPos(sb, ol, pos, Size(op)) else DrawPos(sb, ol, pos, Size(op))
  }

  function UseWrapped(sb: nat, ol: nat, pos: nat, op: Op): (w: nat)
    requires sb <= pos < ol
  {
    if op.Bytes? then Wrapped(sb, ol, pos, Size(op)) else DrawWrapped(ol, pos, Size(op))
  }

  function UseFront(sb: nat, pos: nat, op: Op, before: seq<byte>, block: seq<byte>): (b: seq<byte>)
    requires sb <= pos < |block| == |before| && Dimensions(sb, |block|) && Supported(op)
    ensures |b| == |block|
  {
    if op.Bytes? then RequestFront(sb, pos, Size(op), before, block) else DrawFront(sb, pos, Size(op), before, block)
  }

  /** A request or draw that a Stir was not needed for moves the position; another leaves the last bytes
      it took after refilling an exhausted buffer, up to a key length. */
  function Move(sb: nat, ol: nat, p: Place, op: Op): (q: Place)
    requires PlaceOk(sb, ol, p) && Dimensions(sb, ol) && Supported(op)
    ensures PlaceOk(sb, ol, q)
  {
    var pos := UsePos(sb, ol, p.pos, op);
    UsePosFits(sb, ol, p.pos, op);
    if Size(op) + p.pos < ol then Place(pos, p.lo, p.hi)
    else Place(pos, pos - Min(UseWrapped(sb, ol, p.pos, op), sb), pos)
  }

  lemma UsePosFits(sb: nat, ol: nat, pos: nat, op: Op)
    requires sb <= pos < ol && Dimensions(sb, ol) && Supported(op)
    ensures sb <= UsePos(sb, ol, pos, op) < ol
    ensures Size(op) + pos < ol ==> UsePos(sb, ol, pos, op) == pos + Size(op)
    ensures UseWrapped(sb, ol, pos, op) == 0 || UsePos(sb, ol, pos, op) == sb + UseWrapped(sb, ol, pos, op)
  {
    if op.Bytes? && Size(op) + pos >= ol * 2 - sb - 1 { DivMod(Size(op) - (ol - pos), ol); }
  }

  /** What the buffer holds at a place: of the bytes handed out, those from lo to hi; and all that follow. */
  ghost predicate Holds(front: seq<byte>, block: seq<byte>, p: Place) {
    && |front| == |block| && p.lo <= p.hi <= p.pos <= |block|
    && Gone(front, 0, p.lo) && Gone(front, p.hi, p.pos)
    && front[p.lo..p.hi] == block[p.lo..p.hi] && front[p.pos..] == block[p.pos..]
  }

  lemma StirHolds(block: seq<byte>, sb: nat)
    requires sb <= |block|
    ensures Holds(ClearedTo(block, sb), block, Stirred(sb))
  {
  }

  lemma FromBufHolds(sb: nat, p: Place, n: nat, front: seq<byte>, block: seq<byte>)
    requires PlaceOk(sb, |block|, p) && |front| == |block| && Dimensions(sb, |block|) && n + p.pos < 2 * |block| - sb
    requires n + p.pos < |block| ==> Holds(front, block, p)
    ensures var ol, pos := |block|, FromBufPos(sb, |block|, p.pos, n);
            pos < ol && Min(FromBufWrapped(ol, p.pos, n), sb) <= pos &&
            Holds(FromBufFront(sb, p.pos, n, front, block), block,
                  if n + p.pos < ol then Place(pos, p.lo, p.hi)
                  else Place(pos, pos - Min(FromBufWrapped(ol, p.pos, n), sb), pos))
  {
    hide Holds, ClearedTo;
    if n + p.pos < |block| {
      HereHolds(p, n, front, block);
    } else {
      ClearedHolds(sb, block, n - (|block| - p.pos));
    }
  }

  lemma HereHolds(p: Place, n: nat, front: seq<byte>, block: seq<byte>)
    requires Holds(front, block, p) && p.pos + n <= |block|
    ensures Holds(front[..p.pos] + Zeros(n) + front[p.pos + n..], block, Place(p.pos + n, p.lo, p.hi))
  {
    var f := front[..p.pos] + Zeros(n) + front[p.pos + n..];
    assert f[p.pos + n..] == front[p.pos + n..] == front[p.pos..][n..];
    assert f[p.lo..p.hi] == front[p.lo..p.hi];
  }

  lemma DrawHolds(sb: nat, p: Place, k: nat, front: seq<byte>, block: seq<byte>)
    requires PlaceOk(sb, |block|, p) && |front| == |block| && Dimensions(sb, |block|) && Supported(Int(k))
    requires k + p.pos < |block| ==> Holds(front, block, p)
    ensures Holds(DrawFront(sb, p.pos, k, front, block), block, Move(sb, |block|, p, Int(k)))
  {
    hide Holds;
    UsePosFits(sb, |block|, p.pos, Int(k));
    if k + p.pos < |block| {
      HereHolds(p, k, front, block);
    } else {
      ClearedHolds(sb, block, if k + p.pos == |block| then 0 else k);
    }
  }

  /** After w bytes of a new block, with the clearing counted from its start. */
  lemma ClearedHolds(sb: nat, block: seq<byte>, w: nat)
    requires sb + w <= |block|
    ensures Holds(ClearedTo(block, Max(sb, w)), block, Place(sb + w, sb + w - Min(w, sb), sb + w))
  {
    var z, kept := Max(sb, w), Min(w, sb);
    var b := ClearedTo(block, z);
    assert z == sb + w - kept;
    assert b[z..] == block[z..];
    assert b[z..sb + w] == b[z..][..kept] && block[z..sb + w] == block[z..][..kept];
    assert b[sb + w..] == b[z..][kept..] && block[sb + w..] == block[z..][kept..];
  }

  lemma LargeHolds(sb: nat, p: Place, n: nat, front: seq<byte>, block: seq<byte>)
    requires PlaceOk(sb, |block|, p) && |front| == |block| && Dimensions(sb, |block|)
    requires n + p.pos >= |block| * 2 - sb - 1
    ensures Holds(RequestFront(sb, p.pos, n, front, block), block, Move(sb, |block|, p, Bytes(n)))
  {
    hide Holds, FromBufFront, ClearedTo;
    var ol := |block|;
    var left := (n - (ol - p.pos)) % ol;
    DivMod(n - (ol - p.pos), ol);
    StirHolds(block, sb);
    FromBufHolds(sb, Stirred(sb), left, ClearedTo(block, sb), block);
    UsePosFits(sb, ol, p.pos, Bytes(n));
    if left + sb < ol {
      NothingStays(FromBufFront(sb, sb, left, ClearedTo(block, sb), block), block, sb + left, sb);
    }
  }

  lemma NothingStays(front: seq<byte>, block: seq<byte>, pos: nat, lo: nat)
    requires Holds(front, block, Place(pos, lo, lo))
    ensures Holds(front, block, Place(pos, pos, pos))
  {
  }

  lemma SmallHolds(sb: nat, p: Place, n: nat, front: seq<byte>, block: seq<byte>)
    requires PlaceOk(sb, |block|, p) && |front| == |block| && Dimensions(sb, |block|)
    requires n + p.pos < |block| * 2 - sb - 1
    requires n + p.pos < |block| ==> Holds(front, block, p)
    ensures Holds(RequestFront(sb, p.pos, n, front, block), block, Move(sb, |block|, p, Bytes(n)))
  {
    hide Holds, FromBufFront;
    FromBufHolds(sb, p, n, front, block);
    UsePosFits(sb, |block|, p.pos, Bytes(n));
  }

  /** One request or draw; `block` is the block stirred last after it, the old one if it stirred none. */
  lemma UseHolds(sb: nat, p: Place, op: Op, front: seq<byte>, block: seq<byte>)
    requires PlaceOk(sb, |block|, p) && |front| == |block| && Dimensions(sb, |block|) && Supported(op)
    requires Size(op) + p.pos < |block| ==> Holds(front, block, p)
    ensures Holds(UseFront(sb, p.pos, op, front, block), block, Move(sb, |block|, p, op))
  {
    hide Holds, Move, RequestFront, DrawFront;
    match op {
      case Int(k) => DrawHolds(sb, p, k, front, block);
      case Bytes(n) =>
        if n + p.pos < |block| * 2 - sb - 1 {
          SmallHolds(sb, p, n, front, block);
        } else {
          LargeHolds(sb, p, n, front, block);
        }
    }
  }

  /** A request or draw, and the block stirred last after it. */
  datatype Turn = Turn(op: Op, block: seq<byte>)

  /** The sizes fit, and the block changes only when a Stir was needed. */
  ghost predicate Turns(sb: nat, ol: nat, p: Place, block: seq<byte>, ss: seq<Turn>)
    requires PlaceOk(sb, ol, p) && Dimensions(sb, ol)
    decreases |ss|
  {
    ss == [] ||
    (Supported(ss[0].op) && |ss[0].block| == ol && (Size(ss[0].op) + p.pos < ol ==> ss[0].block == block) &&
     Turns(sb, ol, Move(sb, ol, p, ss[0].op), ss[0].block, ss[1..]))
  }

  function PlaceAfter(sb: nat, ol: nat, p: Place, ss: seq<Turn>): (q: Place)
    requires PlaceOk(sb, ol, p) && Dimensions(sb, ol) && forall s <- ss :: Supported(s.op)
    ensures PlaceOk(sb, ol, q)
    decreases |ss|
  {
    if ss == [] then p
    else
      assert ss[0] in ss && forall s <- ss[1..] :: s in ss;
      PlaceAfter(sb, ol, Move(sb, ol, p, ss[0].op), ss[1..])
  }

  function FrontAfter(sb: nat, ol: nat, p: Place, front: seq<byte>, ss: seq<Turn>): (b: seq<byte>)
    requires PlaceOk(sb, ol, p) && Dimensions(sb, ol) && |front| == ol
    requires forall s <- ss :: Supported(s.op) && |s.block| == ol
    ensures |b| == ol
    decreases |ss|
  {
    if ss == [] then front
    else
      assert ss[0] in ss && forall s <- ss[1..] :: s in ss;
      FrontAfter(sb, ol, Move(sb, ol, p, ss[0].op), UseFront(sb, p.pos, ss[0].op, front, ss[0].block), ss[1..])
  }

  function LastBlock(block: seq<byte>, ss: seq<Turn>): (b: seq<byte>) { if ss == [] then block else ss[|ss| - 1].block }

  /** Over any run of requests and draws from a Stir on: of all bytes handed out in the run, the buffer
      holds those of the last block from lo to hi, as `Move` keeps them, and no others; a place moves lo
      and hi only when a Stir was needed, so bytes that stay do so until the next refill. */
  lemma {:induction false} RunHolds(sb: nat, ol: nat, p: Place, front: seq<byte>, block: seq<byte>, ss: seq<Turn>)
    requires PlaceOk(sb, ol, p) && Dimensions(sb, ol) && |front| == |block| == ol && Holds(front, block, p)
    requires Turns(sb, ol, p, block, ss) && forall s <- ss :: Supported(s.op) && |s.block| == ol
    ensures Holds(FrontAfter(sb, ol, p, front, ss), LastBlock(block, ss), PlaceAfter(sb, ol, p, ss))
    decreases |ss|
  {
    hide Move, UseFront, Holds, Supported;
    if ss != [] {
      assert ss[0] in ss && forall s <- ss[1..] :: s in ss;
      UseHolds(sb, p, ss[0].op, front, ss[0].block);
      RunHolds(sb, ol, Move(sb, ol, p, ss[0].op), UseFront(sb, p.pos, ss[0].op, front, ss[0].block), ss[0].block,
               ss[1..]);
    }
  }
}
