/** The vector generator of src/chacha_krovetz.c, for every instruction set and every number of
    blocks per iteration it is built for.

    A block is held as four rows of four lanes; a diagonal round is a column round between two
    lane rotations.  VBPI vector blocks, and on some machines one more scalar block, are in
    flight at a time. */
module Krovetz {
  import opened Prf
  import opened Words
  import opened ChaCha
  import opened Splice
  import opened Arithmetic

  const LOOP_ITERATIONS: nat := 4

  /** Neon as gcc and as clang compile it, SSE2 and SSSE3. */
  datatype Isa = Neon | NeonClang | Sse2 | Ssse3

  datatype Vec = Vec(l0: Word, l1: Word, l2: Word, l3: Word)

  /** v0, v1, v2, v3 of one block. */
  datatype Rows = Rows(v0: Vec, v1: Vec, v2: Vec, v3: Vec)

  function RowsOf(s: Block): (r: Rows) {
    Rows(Vec(s.x0, s.x1, s.x2, s.x3), Vec(s.x4, s.x5, s.x6, s.x7),
         Vec(s.x8, s.x9, s.x10, s.x11), Vec(s.x12, s.x13, s.x14, s.x15))
  }

  // ----- lanes

  function VAdd(x: Vec, y: Vec): (r: Vec) { Vec(Add(x.l0, y.l0), Add(x.l1, y.l1), Add(x.l2, y.l2), Add(x.l3, y.l3)) }
  function VXor(x: Vec, y: Vec): (r: Vec) {
    Vec(XorW(x.l0, y.l0), XorW(x.l1, y.l1), XorW(x.l2, y.l2), XorW(x.l3, y.l3))
  }

  function RotV1(x: Vec): (r: Vec) { Vec(x.l1, x.l2, x.l3, x.l0) }
  function RotV2(x: Vec): (r: Vec) { Vec(x.l2, x.l3, x.l0, x.l1) }
  function RotV3(x: Vec): (r: Vec) { Vec(x.l3, x.l0, x.l1, x.l2) }

  /** Byte b of the stored word, as a number. */
  function ByteAt(w: Word, b: nat): (r: nat)
    requires b < 4
  {
    NatOf(Store(w)[b])
  }

  /** One lane of ROTW16: halfwords reversed, bytes shuffled, or shifts combined by exclusive or. */
  function RotW16(isa: Isa, w: Word): (r: nat) {
    match isa
    case Neon => ReverseHalves(w)
    case NeonClang => ReverseHalves(w)
    case Ssse3 => LoadNat(ByteAt(w, 2), ByteAt(w, 3), ByteAt(w, 0), ByteAt(w, 1))
    case Sse2 => NatXor(ShiftLeft(w, 0x1_0000), w / 0x1_0000)
  }

  /** One lane of ROTW12: shift right and insert, or shifts combined by exclusive or. */
  function RotW12(isa: Isa, w: Word): (r: nat) {
    if isa.Neon? then ShiftRightInsert(ShiftLeft(w, 0x1000), w, 0x1000, 0x10_0000)
    else NatXor(ShiftLeft(w, 0x1000), w / 0x10_0000)
  }

  function RotW8(isa: Isa, w: Word): (r: nat) {
    match isa
    case Neon => ShiftRightInsert(ShiftLeft(w, 0x100), w, 0x100, 0x100_0000)
    case Ssse3 => LoadNat(ByteAt(w, 3), ByteAt(w, 0), ByteAt(w, 1), ByteAt(w, 2))
    case _ => NatXor(ShiftLeft(w, 0x100), w / 0x100_0000)
  }

  function RotW7(isa: Isa, w: Word): (r: nat) {
    if isa.Neon? then ShiftRightInsert(ShiftLeft(w, 0x80), w, 0x80, 0x200_0000)
    else NatXor(ShiftLeft(w, 0x80), w / 0x200_0000)
  }

  /** Every spelling rotates. */
  lemma LanesRotate(isa: Isa, w: Word)
    ensures RotW16(isa, w) == Rot16(w) && RotW12(isa, w) == Rot12(w)
    ensures RotW8(isa, w) == Rot8(w) && RotW7(isa, w) == Rot7(w)
  {
    hide NatXor, Store, LoadNat, Rot16, Rot12, Rot8, Rot7, NatOf, ShiftLeft, ShiftRightInsert, ReverseHalves;
    RotateByXor(w);
    RotateByInsert(w);
    RotateByShuffle(ByteAt(w, 0), ByteAt(w, 1), ByteAt(w, 2), ByteAt(w, 3));
    LoadStore(w);
    assert LoadNat(ByteAt(w, 0), ByteAt(w, 1), ByteAt(w, 2), ByteAt(w, 3)) == Load(Store(w));
  }

  function VRot16(x: Vec): (r: Vec) { Vec(Rot16(x.l0), Rot16(x.l1), Rot16(x.l2), Rot16(x.l3)) }
  function VRot12(x: Vec): (r: Vec) { Vec(Rot12(x.l0), Rot12(x.l1), Rot12(x.l2), Rot12(x.l3)) }
  function VRot8(x: Vec): (r: Vec) { Vec(Rot8(x.l0), Rot8(x.l1), Rot8(x.l2), Rot8(x.l3)) }
  function VRot7(x: Vec): (r: Vec) { Vec(Rot7(x.l0), Rot7(x.l1), Rot7(x.l2), Rot7(x.l3)) }

  method MachineRot16(isa: Isa, x: Vec) returns (y: Vec)
    ensures y == VRot16(x)
  {
    hide RotW16, Rot16;
    LanesRotate(isa, x.l0); LanesRotate(isa, x.l1); LanesRotate(isa, x.l2); LanesRotate(isa, x.l3);
    y := Vec(RotW16(isa, x.l0), RotW16(isa, x.l1), RotW16(isa, x.l2), RotW16(isa, x.l3));
  }

  method MachineRot12(isa: Isa, x: Vec) returns (y: Vec)
    ensures y == VRot12(x)
  {
    hide RotW12, Rot12;
    LanesRotate(isa, x.l0); LanesRotate(isa, x.l1); LanesRotate(isa, x.l2); LanesRotate(isa, x.l3);
    y := Vec(RotW12(isa, x.l0), RotW12(isa, x.l1), RotW12(isa, x.l2), RotW12(isa, x.l3));
  }

  method MachineRot8(isa: Isa, x: Vec) returns (y: Vec)
    ensures y == VRot8(x)
  {
    hide RotW8, Rot8;
    LanesRotate(isa, x.l0); LanesRotate(isa, x.l1); LanesRotate(isa, x.l2); LanesRotate(isa, x.l3);
    y := Vec(RotW8(isa, x.l0), RotW8(isa, x.l1), RotW8(isa, x.l2), RotW8(isa, x.l3));
  }

  method MachineRot7(isa: Isa, x: Vec) returns (y: Vec)
    ensures y == VRot7(x)
  {
    hide RotW7, Rot7;
    LanesRotate(isa, x.l0); LanesRotate(isa, x.l1); LanesRotate(isa, x.l2); LanesRotate(isa, x.l3);
    y := Vec(RotW7(isa, x.l0), RotW7(isa, x.l1), RotW7(isa, x.l2), RotW7(isa, x.l3));
  }

  // ----- a double round on rows

  /** Four quarter rounds at once, one in each lane. */
  function QuarterRows(r: Rows): (res: Rows) {
    var a1 := VAdd(r.v0, r.v1);
    var d1 := VRot16(VXor(r.v3, a1));
    var c1 := VAdd(r.v2, d1);
    var b1 := VRot12(VXor(r.v1, c1));
    var a2 := VAdd(a1, b1);
    var d2 := VRot8(VXor(d1, a2));
    var c2 := VAdd(c1, d2);
    var b2 := VRot7(VXor(b1, c2));
    Rows(a2, b2, c2, d2)
  }

  function Skew(r: Rows): (res: Rows) { Rows(r.v0, RotV1(r.v1), RotV2(r.v2), RotV3(r.v3)) }

  function Unskew(r: Rows): (res: Rows) { Rows(r.v0, RotV3(r.v1), RotV2(r.v2), RotV1(r.v3)) }

  lemma QuarterRowsAreColumns(s: Block)
    ensures QuarterRows(RowsOf(s)) == RowsOf(Columns(s))
  {
    hide Add, XorW, Rot16, Rot12, Rot8, Rot7;
  }

  /** Skewed rows: the diagonals stand in columns. */
  lemma SkewedAreDiagonals(s: Block)
    ensures Unskew(QuarterRows(Skew(RowsOf(s)))) == RowsOf(Diagonals(s))
  {
    hide Add, XorW, Rot16, Rot12, Rot8, Rot7;
  }

  /** DQROUND_VECTORS on the rows of a block is a double round of the block. */
  lemma DoubleRoundOfRows(s: Block)
    ensures Unskew(QuarterRows(Skew(QuarterRows(RowsOf(s))))) == RowsOf(TwoRounds(s))
  {
    hide QuarterRows, Skew, Unskew, Columns, Diagonals, RowsOf;
    QuarterRowsAreColumns(s);
    SkewedAreDiagonals(Columns(s));
  }

  method QuarterVectors(isa: Isa, a0: Vec, b0: Vec, c0: Vec, d0: Vec) returns (a: Vec, b: Vec, c: Vec, d: Vec)
    ensures Rows(a, b, c, d) == QuarterRows(Rows(a0, b0, c0, d0))
  {
    hide VAdd, VXor, VRot16, VRot12, VRot8, VRot7;
    a, b, c, d := a0, b0, c0, d0;
    a := VAdd(a, b); d := VXor(d, a); d := MachineRot16(isa, d);
    c := VAdd(c, d); b := VXor(b, c); b := MachineRot12(isa, b);
    a := VAdd(a, b); d := VXor(d, a); d := MachineRot8(isa, d);
    c := VAdd(c, d); b := VXor(b, c); b := MachineRot7(isa, b);
  }

  /** DQROUND_VECTORS. */
  method DQRoundVectors(isa: Isa, r: Rows, ghost s: Block) returns (r': Rows)
    requires r == RowsOf(s)
    ensures r' == RowsOf(TwoRounds(s))
  {
    hide QuarterRows, TwoRounds, RowsOf;
    var a, b, c, d := QuarterVectors(isa, r.v0, r.v1, r.v2, r.v3);
    b := RotV1(b); c := RotV2(c); d := RotV3(d);
    a, b, c, d := QuarterVectors(isa, a, b, c, d);
    b := RotV3(b); c := RotV2(c); d := RotV1(d);
    r' := Rows(a, b, c, d);
    DoubleRoundOfRows(s);
  }

  method QRoundWords(a0: Word, b0: Word, c0: Word, d0: Word) returns (a: Word, b: Word, c: Word, d: Word)
    ensures Quad(a, b, c, d) == QRound(Quad(a0, b0, c0, d0))
  {
    hide Add, XorW, Rot16, Rot12, Rot8, Rot7;
    a, b, c, d := a0, b0, c0, d0;
    a := Add(a, b); d := XorW(d, a); d := Rot16(d);
    c := Add(c, d); b := XorW(b, c); b := Rot12(b);
    a := Add(a, b); d := XorW(d, a); d := Rot8(d);
    c := Add(c, d); b := XorW(b, c); b := Rot7(b);
  }

  /** The double round on the words of the extra scalar block. */
  method DQRoundWords(x: Block) returns (y: Block)
    ensures y == TwoRounds(x)
  {
    hide QRound;
    var x0, x4, x8, x12 := QRoundWords(x.x0, x.x4, x.x8, x.x12);
    var x1, x5, x9, x13 := QRoundWords(x.x1, x.x5, x.x9, x.x13);
    var x2, x6, x10, x14 := QRoundWords(x.x2, x.x6, x.x10, x.x14);
    var x3, x7, x11, x15 := QRoundWords(x.x3, x.x7, x.x11, x.x15);
    x0, x5, x10, x15 := QRoundWords(x0, x5, x10, x15);
    x1, x6, x11, x12 := QRoundWords(x1, x6, x11, x12);
    x2, x7, x8, x13 := QRoundWords(x2, x7, x8, x13);
    x3, x4, x9, x14 := QRoundWords(x3, x4, x9, x14);
    y := Block(x0, x1, x2, x3, x4, x5, x6, x7, x8, x9, x10, x11, x12, x13, x14, x15);
  }

  // ----- the round loop on all registers

  /** The registers hold the rows of these blocks. */
  ghost predicate Hold(v: seq<Rows>, u: seq<Block>) {
    |v| == |u| && forall b | 0 <= b < |v| :: v[b] == RowsOf(u[b])
  }

  ghost function AllTimes(n: nat, u: seq<Block>): (r: seq<Block>)
    ensures |r| == |u| && forall b | 0 <= b < |u| :: r[b] == Times(n, u[b])
  {
    seq(|u|, b requires 0 <= b < |u| => Times(n, u[b]))
  }

  method RoundVectors(isa: Isa, v: seq<Rows>, ghost n: nat, ghost u: seq<Block>) returns (v': seq<Rows>)
    requires Hold(v, AllTimes(n, u))
    ensures Hold(v', AllTimes(n + 1, u))
  {
    hide TwoRounds, RowsOf;
    v' := [];
    for b := 0 to |v|
      invariant |v'| == b && forall k | 0 <= k < b :: v'[k] == RowsOf(Times(n + 1, u[k]))
    {
      var r := DQRoundVectors(isa, v[b], Times(n, u[b]));
      v' := v' + [r];
    }
  }

  method RoundLoop(isa: Isa, rounds: nat, gprToo: bool, v: seq<Rows>, x: Block, ghost u: seq<Block>)
    returns (v': seq<Rows>, x': Block)
    requires rounds % 2 == 0 && Hold(v, u)
    ensures Hold(v', AllTimes(rounds / 2, u))
    ensures gprToo ==> x' == Times(rounds / 2, x)
  {
    hide RowsOf, TwoRounds;
    v', x' := v, x;
    assert AllTimes(0, u) == u;
    ghost var done := 0;
    var i := rounds / 2;
    while i > 0
      invariant done == rounds / 2 - i && 0 <= i
      invariant Hold(v', AllTimes(done, u))
      invariant gprToo ==> x' == Times(done, x)
    {
      v' := RoundVectors(isa, v', done, u);
      if gprToo { x' := DQRoundWords(x'); }
      i := i - 1;
      done := done + 1;
    }
  }

  // ----- one iteration of the outer loop

  /** s3 += ONE. */
  function Bump(s: Rows): (r: Rows) { s.(v3 := VAdd(s.v3, Vec(1, 0, 0, 0))) }

  /** The rows for block number n, and the next block's. */
  lemma BumpIsNext(key: Key, n: nat)
    ensures Bump(RowsOf(Input(key, n))) == RowsOf(Input(key, n + 1))
  {
    CountsUp(n);
    AddZero(key.n0);
    AddZero(key.n1);
    AddZero(0);
    assert Count(0) == 0 && Count(1) == 1;
  }

  ghost function Inputs(key: Key, n: nat, k: nat): (r: seq<Block>)
    ensures |r| == k && forall b | 0 <= b < k :: r[b] == Input(key, n + b)
  {
    seq(k, b requires 0 <= b < k => Input(key, n + b))
  }

  /** The registers at the start of an iteration: v3, v7, v11, v15 count up by one. */
  method StartRegisters(vbpi: nat, s: Rows, ghost key: Key, ghost n: nat) returns (v: seq<Rows>)
    requires s == RowsOf(Input(key, n))
    ensures Hold(v, Inputs(key, n, vbpi))
  {
    hide RowsOf, Input, Bump;
    v := [];
    var r := s;
    for b := 0 to vbpi
      invariant r == RowsOf(Input(key, n + b))
      invariant |v| == b && forall k | 0 <= k < b :: v[k] == RowsOf(Input(key, n + k))
    {
      v := v + [r];
      BumpIsNext(key, n + b);
      r := Bump(r);
    }
  }

  /** WRITE: the four rows, with the input rows added. */
  method WriteVectors(op: array<Word>, at: nat, r: Rows, s: Rows, ghost t: Block, ghost i: Block)
    requires at + 16 <= op.Length && r == RowsOf(t) && s == RowsOf(i)
    modifies op
    ensures Wrote(old(op[..]), op[..], at, ListOf(Plus(t, i)))
  {
    hide Add;
    var y0, y1, y2, y3 := VAdd(r.v0, s.v0), VAdd(r.v1, s.v1), VAdd(r.v2, s.v2), VAdd(r.v3, s.v3);
    WriteBlock(op, at, Block(y0.l0, y0.l1, y0.l2, y0.l3, y1.l0, y1.l1, y1.l2, y1.l3,
                             y2.l0, y2.l1, y2.l2, y2.l3, y3.l0, y3.l1, y3.l2, y3.l3));
  }

  method WriteBlock(op: array<Word>, at: nat, y: Block)
    requires at + 16 <= op.Length
    modifies op
    ensures Wrote(old(op[..]), op[..], at, ListOf(y))
    ensures op[at] == y.x0 && op[at + 1] == y.x1 && op[at + 2] == y.x2 && op[at + 3] == y.x3
    ensures op[at + 4] == y.x4 && op[at + 5] == y.x5 && op[at + 6] == y.x6 && op[at + 7] == y.x7
    ensures op[at + 8] == y.x8 && op[at + 9] == y.x9 && op[at + 10] == y.x10 && op[at + 11] == y.x11
    ensures op[at + 12] == y.x12 && op[at + 13] == y.x13 && op[at + 14] == y.x14 && op[at + 15] == y.x15
  {
    hide ListOf, Wrote;
    WriteWords(op, at, y);
    Written(old(op[..]), op[..], at, ListOf(y));
    WordsInOrder(op[..], at, y);
  }

  /** The words of a block, x0 first. */
  lemma WordsInOrder(ws: seq<Word>, at: nat, y: Block)
    requires at + 16 <= |ws| && ws[at..at + 16] == ListOf(y)
    ensures ws[at] == y.x0 && ws[at + 1] == y.x1 && ws[at + 2] == y.x2 && ws[at + 3] == y.x3
    ensures ws[at + 4] == y.x4 && ws[at + 5] == y.x5 && ws[at + 6] == y.x6 && ws[at + 7] == y.x7
    ensures ws[at + 8] == y.x8 && ws[at + 9] == y.x9 && ws[at + 10] == y.x10 && ws[at + 11] == y.x11
    ensures ws[at + 12] == y.x12 && ws[at + 13] == y.x13 && ws[at + 14] == y.x14 && ws[at + 15] == y.x15
  {
    var block := ws[at..at + 16];
    assert forall i | 0 <= i < 16 :: ws[at + i] == block[i];
  }

  method WriteWords(op: array<Word>, at: nat, y: Block)
    requires at + 16 <= op.Length
    modifies op
    ensures Wrote(old(op[..]), op[..], at, ListOf(y))
  {
    hide ListOf;
    ghost var before := op[..];
    var ws := ListOf(y);
    for k := 0 to 16
      invariant op[..at + k] == before[..at] + ws[..k]
      invariant op[at + k..] == before[at + k..]
    {
      op[at + k] := ws[k];
    }
    assert ws[..16] == ws;
    assert op[..] == op[..at + 16] + op[at + 16..];
  }

  /** Write out the vector blocks n .. n + |v| - 1, counting s3 up after each. */
  method WriteAll(rounds: nat, op: array<Word>, at: nat, v: seq<Rows>, s: Rows, ghost key: Key, ghost n: nat)
    returns (s': Rows)
    requires at + 16 * |v| <= op.Length
    requires s == RowsOf(Input(key, n)) && Hold(v, AllTimes(rounds / 2, Inputs(key, n, |v|)))
    modifies op
    ensures s' == RowsOf(Input(key, n + |v|))
    ensures Wrote(old(op[..]), op[..], at, Keystream(rounds, key, n, |v|))
  {
    hide RowsOf, Input, Bump, Wrote, ListOf, Times, Plus;
    s' := s;
    ghost var op0 := op[..];
    WroteNothing(op0, at);
    for b := 0 to |v|
      invariant s' == RowsOf(Input(key, n + b))
      invariant Wrote(op0, op[..], at, Keystream(rounds, key, n, b))
    {
      ghost var before, t := op[..], Times(rounds / 2, Input(key, n + b));
      WriteVectors(op, at + 16 * b, v[b], s', t, Input(key, n + b));
      WroteTwice(op0, before, op[..], at, Keystream(rounds, key, n, b), ListOf(BlockFn(rounds, key, n + b)));
      BumpIsNext(key, n + b);
      s' := Bump(s');
    }
  }

  function BlocksPerIteration(vbpi: nat, gprToo: bool): (r: nat) { vbpi + (if gprToo then 1 else 0) }

  lemma PerIteration(vbpi: nat, gprToo: bool)
    requires vbpi >= 2
    ensures BlocksPerIteration(vbpi, gprToo) >= 2 && (gprToo ==> BlocksPerIteration(vbpi, gprToo) - 1 == vbpi)
  {
  }

  /** The counter word of the scalar block: 32-bit arithmetic on the first block number. */
  lemma ScalarCounter(start: nat, k: nat)
    ensures Count(Count(start) + k) == Count(start + k)
  {
  }

  /** One iteration: BPI blocks from block n on. */
  method Iteration(isa: Isa, rounds: nat, vbpi: nat, gprToo: bool, op: array<Word>, at: nat, s: Rows,
                   key: Key, xctr: Word, ghost n: nat)
    returns (s': Rows)
    requires rounds % 2 == 0 && at + 16 * BlocksPerIteration(vbpi, gprToo) <= op.Length
    requires s == RowsOf(Input(key, n)) && (gprToo ==> xctr == Count(n + vbpi))
    modifies op
    ensures s' == RowsOf(Input(key, n + BlocksPerIteration(vbpi, gprToo)))
    ensures Wrote(old(op[..]), op[..], at, Keystream(rounds, key, n, BlocksPerIteration(vbpi, gprToo)))
  {
    hide RowsOf, Bump, Wrote, ListOf, Times, Plus, Hold, AllTimes, InputAt, Count;
    ghost var op0 := op[..];
    var v := StartRegisters(vbpi, s, key, n);
    var j := InputAt(key, xctr);
    var x;
    v, x := RoundLoop(isa, rounds, gprToo, v, j, Inputs(key, n, vbpi));
    HoldSize(v, AllTimes(rounds / 2, Inputs(key, n, vbpi)));
    s' := WriteAll(rounds, op, at, v, s, key, n);
    if gprToo {
      ghost var op1 := op[..];
      WriteBlock(op, at + 16 * vbpi, Plus(x, j));
      WroteTwice(op0, op1, op[..], at, Keystream(rounds, key, n, vbpi), ListOf(BlockFn(rounds, key, n + vbpi)));
      BumpIsNext(key, n + vbpi);
      s' := Bump(s');
    }
  }

  lemma HoldSize(v: seq<Rows>, u: seq<Block>)
    requires Hold(v, u)
    ensures |v| == |u|
  {
  }

  // ----- the generator

  /** BPI * j: the blocks made before iteration j. */
  function Done(bpi: nat, j: nat): (r: nat) { bpi * j }

  /** Bytes per call: 768 with three blocks an iteration, as three vector blocks or as two and a
      scalar one, and 1024 with four. */
  lemma OutputLengths()
    ensures 64 * Done(BlocksPerIteration(2, true), LOOP_ITERATIONS) == 768
    ensures 64 * Done(BlocksPerIteration(3, false), LOOP_ITERATIONS) == 768
    ensures 64 * Done(BlocksPerIteration(3, true), LOOP_ITERATIONS) == 1024
    ensures 64 * Done(BlocksPerIteration(4, false), LOOP_ITERATIONS) == 1024
  {
  }

  lemma DoneStep(bpi: nat, j: nat)
    requires j < LOOP_ITERATIONS
    ensures Done(bpi, 0) == 0 && Done(bpi, j + 1) == Done(bpi, j) + bpi
    ensures Done(bpi, j + 1) <= Done(bpi, LOOP_ITERATIONS)
  {
    Multiply(j, bpi);
    MulOrder(j + 1, LOOP_ITERATIONS, bpi);
  }

  /** The words of 4 * BPI blocks from `start` on, in order: what the scalar generator makes. */
  method Blocks(isa: Isa, rounds: nat, vbpi: nat, gprToo: bool, out: array<Word>, blockIdx: Word,
                key: Key, ghost start: nat)
    requires rounds % 2 == 0 && vbpi >= 2 && blockIdx == Count(start)
    requires out.Length >= 16 * Done(BlocksPerIteration(vbpi, gprToo), LOOP_ITERATIONS)
    modifies out
    ensures Wrote(old(out[..]), out[..], 0,
                  Keystream(rounds, key, start, Done(BlocksPerIteration(vbpi, gprToo), LOOP_ITERATIONS)))
  {
    hide RowsOf, Wrote, Keystream, Input, Done, Count, BlocksPerIteration;
    var bpi := BlocksPerIteration(vbpi, gprToo);
    PerIteration(vbpi, gprToo);
    var s := FirstRows(blockIdx, key, start);
    ghost var out0 := out[..];
    WroteNothing(out0, 0);
    KeystreamNothing(rounds, key, start);
    DoneStep(bpi, 0);
    for j := 0 to LOOP_ITERATIONS
      invariant s == RowsOf(Input(key, start + Done(bpi, j)))
      invariant Wrote(out0, out[..], 0, Keystream(rounds, key, start, Done(bpi, j)))
    {
      ghost var before := out[..];
      var done := Done(bpi, j);
      DoneStep(bpi, j);
      ScalarCounter(start, done + (bpi - 1));
      var xctr := Count(blockIdx + (done + (bpi - 1)));
      s := Iteration(isa, rounds, vbpi, gprToo, out, 16 * done, s, key, xctr, start + done);
      WroteTwice(out0, before, out[..], 0,
                 Keystream(rounds, key, start, done), Keystream(rounds, key, start + done, bpi));
      KeystreamSplits(rounds, key, start, done, bpi);
    }
  }

  /** s0..s3: constants, key, and the counter and nonce word row. */
  method FirstRows(blockIdx: Word,
                key: Key, ghost start: nat) returns (s: Rows)
    requires blockIdx == Count(start)
    ensures s == RowsOf(Input(key, start))
  {
    s := Rows(Vec(0x61707865, 0x3320646e, 0x79622d32, 0x6b206574), Vec(key.k0, key.k1, key.k2, key.k3),
              Vec(key.k4, key.k5, key.k6, key.k7), Vec(blockIdx, 0, key.n0, key.n1));
  }

  lemma KeystreamNothing(rounds: nat, key: Key, start: nat)
    ensures Keystream(rounds, key, start, 0) == []
  {
  }

  lemma {:induction false} KeystreamSplits(rounds: nat, key: Key, start: nat, m: nat, n: nat)
    ensures Keystream(rounds, key, start, m + n)
            == Keystream(rounds, key, start, m) + Keystream(rounds, key, start + m, n)
  {
    hide ListOf, BlockFn;
    if n > 0 {
      KeystreamSplits(rounds, key, start, m, n - 1);
    } else {
      assert Keystream(rounds, key, start, m) + [] == Keystream(rounds, key, start, m);
    }
  }

  /** The state keeps the key and nonce bytes as they are; their words are read when blocks are made. */
  class KrovetzState {
    const key: array<byte>
    const nonce: array<byte>

    constructor ()
      ensures fresh(key) && fresh(nonce) && Shape()
    {
      key := new byte[32](_ => 0);
      nonce := new byte[8](_ => 0);
    }

    ghost predicate Shape() { key.Length == 32 && nonce.Length == 8 && key != nonce }

    ghost predicate SetUp(bytes: seq<byte>)
      reads key, nonce
    {
      Shape() && key[..] + nonce[..] == bytes
    }

    method Setup(bytes: array<byte>)
      requires Shape() && bytes.Length >= 40 && bytes != key && bytes != nonce
      modifies key, nonce
      ensures SetUp(bytes[..40])
    {
      forall i | 0 <= i < 32 { key[i] := bytes[i]; }
      forall i | 0 <= i < 8 { nonce[i] := bytes[32 + i]; }
      assert key[..] == bytes[..32] && nonce[..] == bytes[32..40];
    }

    /** The PRF call, on the words of the output: their bytes are block idx of the ChaCha PRF, the
        same that the scalar generator gives for the same number of blocks. */
    method Generate(isa: Isa, rounds: nat, vbpi: nat, gprToo: bool, output: array<Word>, idx: nat,
                    ghost bytes: seq<byte>)
      requires rounds % 2 == 0 && vbpi >= 2 && SetUp(bytes)
      requires output.Length == 16 * Done(BlocksPerIteration(vbpi, gprToo), LOOP_ITERATIONS)
      modifies output
      ensures SetUp(bytes)
      ensures WordsToBytes(output[..])
              == PrfBlock(rounds, Done(BlocksPerIteration(vbpi, gprToo), LOOP_ITERATIONS), bytes, idx)
    {
      hide KeystreamBytes, Keystream, KeyOf, WordsToBytes, Wrote;
      var step := Done(BlocksPerIteration(vbpi, gprToo), LOOP_ITERATIONS);
      var words := KeyOf(key[..] + nonce[..]);
      Blocks(isa, rounds, vbpi, gprToo, output, (idx * step) % COUNTER_SPAN, words, FirstBlock(idx, step));
      WroteAll(old(output[..]), output[..], Keystream(rounds, words, FirstBlock(idx, step), step));
      KeystreamInBytes(rounds, words, FirstBlock(idx, step), step);
    }
  }
}
