/** The 32-bit words of the C, their bytes, and the ways the C rotates them.

    A word is a number below 2^32.  `v << n` keeps the low 32 - n bits, `v >> n` divides, and
    `|` of parts without a common bit adds. */
module Words {
  import opened Prf
  import opened Arithmetic

  type Word = w: nat | w < COUNTER_SPAN

  /** n as a uint32_t. */
  function Count(n: nat): (r: Word) { n % COUNTER_SPAN }

  function Add(x: Word, y: Word): (r: Word) { (x + y) % COUNTER_SPAN }

  function Sub(x: Word, y: Word): (r: Word) { (x - y) % COUNTER_SPAN }

  function Bit(x: nat, y: nat): (r: nat) { if x % 2 == y % 2 then 0 else 1 }

  function NatXor(x: nat, y: nat): (r: nat)
    decreases x + y
  {
    if x == 0 && y == 0 then 0 else Bit(x, y) + 2 * NatXor(x / 2, y / 2)
  }

  function Pow2(n: nat): (p: nat)
    ensures p > 0
  {
    if n == 0 then 1 else 2 * Pow2(n - 1)
  }

  lemma {:induction false} XorFits(x: nat, y: nat, n: nat)
    requires x < Pow2(n) && y < Pow2(n)
    ensures NatXor(x, y) < Pow2(n)
  {
    if n > 0 { XorFits(x / 2, y / 2, n - 1); }
  }

  lemma Pow2Step(n: nat)
    ensures Pow2(n + 4) == 16 * Pow2(n)
  {
    assert Pow2(n + 4) == 2 * Pow2(n + 3) && Pow2(n + 3) == 2 * Pow2(n + 2);
    assert Pow2(n + 2) == 2 * Pow2(n + 1) && Pow2(n + 1) == 2 * Pow2(n);
  }

  lemma Pow2Of32()
    ensures Pow2(32) == COUNTER_SPAN && Pow2(16) == 0x1_0000 && Pow2(12) == 0x1000
    ensures Pow2(8) == 0x100 && Pow2(7) == 0x80
  {
    assert Pow2(1) == 2 && Pow2(2) == 4 && Pow2(3) == 8;
    Pow2Step(3);
    Pow2Step(0);
    Pow2Step(4);
    Pow2Step(8);
    Pow2Step(12);
    Pow2Step(16);
    Pow2Step(20);
    Pow2Step(24);
    Pow2Step(28);
  }

  function XorW(x: Word, y: Word): (r: Word) {
    Pow2Of32();
    XorFits(x, y, 32);
    NatXor(x, y)
  }

  function Rot16(x: Word): (r: Word) { (x % 0x1_0000) * 0x1_0000 + x / 0x1_0000 }
  function Rot12(x: Word): (r: Word) { (x % 0x10_0000) * 0x1000 + x / 0x10_0000 }
  function Rot8(x: Word): (r: Word) { (x % 0x100_0000) * 0x100 + x / 0x100_0000 }
  function Rot7(x: Word): (r: Word) { (x % 0x200_0000) * 0x80 + x / 0x200_0000 }

  function Back12(x: Word): (r: Word) { (x % 0x1000) * 0x10_0000 + x / 0x1000 }
  function Back8(x: Word): (r: Word) { (x % 0x100) * 0x100_0000 + x / 0x100 }
  function Back7(x: Word): (r: Word) { (x % 0x80) * 0x200_0000 + x / 0x80 }

  // ----- laws

  lemma CountsUp(n: nat)
    ensures Add(Count(n), Count(1)) == Count(n + 1)
    ensures Count(Count(n)) == Count(n)
  {
  }

  lemma AddZero(x: Word)
    ensures Add(x, Count(0)) == x
  {
  }

  lemma AddSub(x: Word, y: Word)
    ensures Sub(Add(x, y), y) == x && Add(Sub(x, y), y) == x
  {
    AddWraps(x, y);
    SubWraps(x, y);
    AddWraps(Sub(x, y), y);
    SubWraps(Add(x, y), y);
  }

  lemma AddWraps(x: Word, y: Word)
    ensures Add(x, y) == if x + y < COUNTER_SPAN then x + y else x + y - COUNTER_SPAN
  {
    if x + y < COUNTER_SPAN {
      DivUnique(0, COUNTER_SPAN, x + y);
    } else {
      DivUnique(1, COUNTER_SPAN, x + y - COUNTER_SPAN);
    }
  }

  lemma SubWraps(x: Word, y: Word)
    ensures Sub(x, y) == if x >= y then x - y else x - y + COUNTER_SPAN
  {
  }

  /** The lowest bit, and the others. */
  lemma XorHalves(x: nat, y: nat)
    ensures NatXor(x, y) % 2 == Bit(x, y) && NatXor(x, y) / 2 == NatXor(x / 2, y / 2)
  {
  }

  lemma HalvesDecide(x: nat, y: nat)
    requires x % 2 == y % 2 && x / 2 == y / 2
    ensures x == y
  {
  }

  lemma {:induction false} NatXorTwice(x: nat, y: nat)
    ensures NatXor(NatXor(x, y), y) == x
    decreases x + y
  {
    if x != 0 || y != 0 {
      hide NatXor;
      NatXorTwice(x / 2, y / 2);
      XorHalves(x, y);
      XorHalves(NatXor(x, y), y);
      HalvesDecide(NatXor(NatXor(x, y), y), x);
    }
  }

  lemma XorTwice(x: Word, y: Word)
    ensures XorW(XorW(x, y), y) == x
  {
    NatXorTwice(x, y);
  }

  /** Swapping the two parts of a word, cut at A, leaves them readable at B. */
  lemma Swapped(x: Word, A: nat, B: nat)
    requires A > 0 && B > 0 && A * B == COUNTER_SPAN
    ensures var y := (x % A) * B + x / A;
            y / B == x % A && y % B == x / A && (x / A) * A + x % A == x
  {
    DivMod(x, A);
    if x / A >= B { MulOrder(B, x / A, A); }
    DivUnique(x % A, B, x / A);
  }

  lemma RotateBack16(x: Word)
    ensures Rot16(Rot16(x)) == x
  {
    Swapped(x, 0x1_0000, 0x1_0000);
  }

  lemma RotateBack12(x: Word)
    ensures Back12(Rot12(x)) == x && Rot12(Back12(x)) == x
  {
    Swapped(x, 0x10_0000, 0x1000);
    Swapped(x, 0x1000, 0x10_0000);
  }

  lemma RotateBack8(x: Word)
    ensures Back8(Rot8(x)) == x && Rot8(Back8(x)) == x
  {
    Swapped(x, 0x100_0000, 0x100);
    Swapped(x, 0x100, 0x100_0000);
  }

  lemma RotateBack7(x: Word)
    ensures Back7(Rot7(x)) == x && Rot7(Back7(x)) == x
  {
    Swapped(x, 0x200_0000, 0x80);
    Swapped(x, 0x80, 0x200_0000);
  }

  lemma RotateBack(x: Word)
    ensures Rot16(Rot16(x)) == x
    ensures Back12(Rot12(x)) == x && Rot12(Back12(x)) == x
    ensures Back8(Rot8(x)) == x && Rot8(Back8(x)) == x
    ensures Back7(Rot7(x)) == x && Rot7(Back7(x)) == x
  {
    hide *;
    RotateBack16(x);
    RotateBack12(x);
    RotateBack8(x);
    RotateBack7(x);
  }

  // ----- bytes

  function ByteOf(n: nat): (r: byte)
    requires n < 256
  {
    n as byte
  }

  function NatOf(b: byte): (n: nat)
    ensures n < 256
  {
    b as nat
  }

  lemma NatOfByteOf(n: nat)
    requires n < 256
    ensures NatOf(ByteOf(n)) == n
  {
    ThereAndBack(n);
    var b := n as byte;
    assert ByteOf(n) == b && NatOf(b) == b as nat;
  }

  lemma ThereAndBack(n: nat)
    requires n < 256
    ensures (n as byte) as nat == n
  {
    Nibbles(n / 16, n % 16);
  }

  lemma Nibbles(high: nat, low: nat)
    requires high < 16 && low < 16
    ensures ((16 * high + low) as byte) as nat == 16 * high + low
  {
  }

  lemma ByteOfNatOf(b: byte)
    ensures ByteOf(NatOf(b)) == b
  {
  }

  // ----- exclusive or of bytes

  function Half(b: byte): (h: byte) { b >> 1 }

  function LowBit(b: byte): (low: byte) { b & 1 }

  predicate Odd(b: byte) { LowBit(b) == 1 }

  lemma HalfSplit(b: byte)
    ensures Half(b) <= 0x7f && LowBit(b) <= 1 && b == Half(b) + Half(b) + LowBit(b)
  {
  }

  /** Halving a byte, as a bit vector and as a number. */
  lemma HalfByte(b: byte)
    ensures NatOf(Half(b)) == NatOf(b) / 2 && NatOf(b) % 2 == if Odd(b) then 1 else 0
  {
    hide Half, LowBit, NatOf;
    HalfSplit(b);
    DoubleByte(Half(b), LowBit(b));
    DivUnique(NatOf(Half(b)), 2, NatOf(LowBit(b)));
  }

  lemma DoubleByte(h: byte, low: byte)
    requires h <= 0x7f && low <= 1
    ensures NatOf(h + h + low) == 2 * NatOf(h) + NatOf(low) && NatOf(low) < 2
    ensures NatOf(low) == if low == 1 then 1 else 0
  {
  }

  lemma XorHalfByte(a: byte, b: byte)
    ensures Half(Xor(a, b)) == Xor(Half(a), Half(b))
    ensures Odd(Xor(a, b)) <==> Odd(a) != Odd(b)
  {
    assert (a ^ b) >> 1 == (a >> 1) ^ (b >> 1);
    assert (a ^ b) & 1 == (a & 1) ^ (b & 1);
    assert (a & 1 == 0 || a & 1 == 1) && (b & 1 == 0 || b & 1 == 1);
  }

  /** The exclusive or of bytes is the exclusive or of the numbers they are, bit by bit. */
  lemma {:induction false} XorOfBytes(a: byte, b: byte)
    ensures NatOf(Xor(a, b)) == NatXor(NatOf(a), NatOf(b))
    decreases NatOf(a) + NatOf(b)
  {
    hide NatOf, Xor, NatXor, Half, Odd;
    if NatOf(a) == 0 && NatOf(b) == 0 {
      ZeroBytes(a, b);
    } else {
      HalfByte(a);
      HalfByte(b);
      HalfByte(Xor(a, b));
      XorHalfByte(a, b);
      XorOfBytes(Half(a), Half(b));
      XorHalves(NatOf(a), NatOf(b));
      HalvesDecide(NatOf(Xor(a, b)), NatXor(NatOf(a), NatOf(b)));
    }
  }

  lemma ZeroBytes(a: byte, b: byte)
    requires NatOf(a) == 0 && NatOf(b) == 0
    ensures NatOf(Xor(a, b)) == 0 && NatXor(0, 0) == 0
  {
    ByteOfNatOf(a);
    ByteOfNatOf(b);
    assert a == 0 && b == 0;
  }

  lemma XorByteTwice(a: byte, b: byte)
    ensures Xor(Xor(a, b), b) == a
  {
    assert (a ^ b) ^ b == a;
  }

  /** U32TO8_LITTLE. */
  function Store(w: Word): (b: seq<byte>)
    ensures |b| == 4
  {
    var w8 := w / 0x100;
    var w16 := w8 / 0x100;
    [ByteOf(w % 0x100), ByteOf(w8 % 0x100), ByteOf(w16 % 0x100), ByteOf(w16 / 0x100)]
  }

  function LoadNat(b0: nat, b1: nat, b2: nat, b3: nat): (r: Word)
    requires b0 < 256 && b1 < 256 && b2 < 256 && b3 < 256
  {
    b0 + 0x100 * b1 + 0x1_0000 * b2 + 0x100_0000 * b3
  }

  /** U8TO32_LITTLE. */
  function Load(b: seq<byte>): (r: Word)
    requires |b| == 4
  {
    LoadNat(NatOf(b[0]), NatOf(b[1]), NatOf(b[2]), NatOf(b[3]))
  }

  lemma LoadStore(w: Word)
    ensures Load(Store(w)) == w
  {
    hide ByteOf, NatOf;
    var w8 := w / 0x100;
    var w16 := w8 / 0x100;
    NatOfByteOf(w % 0x100);
    NatOfByteOf(w8 % 0x100);
    NatOfByteOf(w16 % 0x100);
    NatOfByteOf(w16 / 0x100);
  }

  /** Byte i of a stored word is its i-th digit to base 256, lowest first. */
  lemma StoreDigits(w: Word)
    ensures NatOf(Store(w)[0]) == w % 0x100
    ensures NatOf(Store(w)[1]) == w / 0x100 % 0x100
    ensures NatOf(Store(w)[2]) == w / 0x1_0000 % 0x100
    ensures NatOf(Store(w)[3]) == w / 0x100_0000
  {
    hide ByteOf, NatOf;
    NatOfByteOf(w % 0x100);
    NatOfByteOf(w / 0x100 % 0x100);
    NatOfByteOf(w / 0x1_0000 % 0x100);
    NatOfByteOf(w / 0x100_0000);
  }

  lemma SplitNat(b0: nat, b1: nat, b2: nat, b3: nat)
    requires b0 < 256 && b1 < 256 && b2 < 256 && b3 < 256
    ensures var w := LoadNat(b0, b1, b2, b3);
            var w8 := w / 0x100;
            var w16 := w8 / 0x100;
            w % 0x100 == b0 && w8 % 0x100 == b1 && w16 % 0x100 == b2 && w16 / 0x100 == b3
  {
    DivUnique(b1 + 0x100 * b2 + 0x1_0000 * b3, 0x100, b0);
    DivUnique(b2 + 0x100 * b3, 0x100, b1);
    DivUnique(b3, 0x100, b2);
  }

  lemma StoreLoad(b: seq<byte>)
    requires |b| == 4
    ensures Store(Load(b)) == b
  {
    hide ByteOf, NatOf;
    SplitNat(NatOf(b[0]), NatOf(b[1]), NatOf(b[2]), NatOf(b[3]));
    ByteOfNatOf(b[0]);
    ByteOfNatOf(b[1]);
    ByteOfNatOf(b[2]);
    ByteOfNatOf(b[3]);
    hide LoadNat;
    assert b == [b[0], b[1], b[2], b[3]];
  }

  lemma Pow2Splits(x: nat, p: nat, a: nat)
    requires a < 2 * p
    ensures x * (2 * p) >= 0 && x * p >= 0
    ensures (x * (2 * p) + a) % 2 == a % 2 && (x * (2 * p) + a) / 2 == x * p + a / 2
  {
    TimesTwice(x, p);
  }

  /** High part and low part, the low one below p. */
  function Joined(high: nat, low: nat, p: nat): (n: nat) {
    Multiply(high, p);
    high * p + low
  }

  /** One bit more in the low parts. */
  lemma XorJoinedMore(x: nat, y: nat, a: nat, b: nat, p: nat)
    requires a < 2 * p && b < 2 * p && NatXor(a, b) < 2 * p
    requires NatXor(Joined(x, a / 2, p), Joined(y, b / 2, p)) == Joined(NatXor(x, y), NatXor(a / 2, b / 2), p)
    ensures NatXor(Joined(x, a, 2 * p), Joined(y, b, 2 * p)) == Joined(NatXor(x, y), NatXor(a, b), 2 * p)
  {
    hide NatXor;
    Pow2Splits(x, p, a);
    Pow2Splits(y, p, b);
    Pow2Splits(NatXor(x, y), p, NatXor(a, b));
    XorHalves(a, b);
    XorByHalves(Joined(x, a, 2 * p), Joined(y, b, 2 * p), Joined(NatXor(x, y), NatXor(a, b), 2 * p));
  }

  /** Exclusive or of the high parts and of the low n bits. */
  lemma {:induction false} XorJoined(x: nat, y: nat, a: nat, b: nat, n: nat)
    requires a < Pow2(n) && b < Pow2(n)
    ensures NatXor(Joined(x, a, Pow2(n)), Joined(y, b, Pow2(n))) == Joined(NatXor(x, y), NatXor(a, b), Pow2(n))
  {
    if n > 0 {
      hide NatXor, Joined;
      XorJoined(x, y, a / 2, b / 2, n - 1);
      XorFits(a, b, n);
      XorJoinedMore(x, y, a, b, Pow2(n - 1));
    } else {
      XorZero(0);
    }
  }

  lemma XorByHalves(x: nat, y: nat, z: nat)
    requires z % 2 == Bit(x, y) && z / 2 == NatXor(x / 2, y / 2)
    ensures NatXor(x, y) == z
  {
    XorHalves(x, y);
    HalvesDecide(NatXor(x, y), z);
  }

  /** A lowest byte and the rest of a number. */
  function OnTop(b: byte, rest: nat): (n: nat) { NatOf(b) + 0x100 * rest }

  lemma XorOfLow(x: nat, y: nat, a: byte, b: byte)
    ensures NatXor(OnTop(a, x), OnTop(b, y)) == OnTop(Xor(a, b), NatXor(x, y))
  {
    hide NatXor, NatOf, Xor;
    Pow2Of32();
    XorJoined(x, y, NatOf(a), NatOf(b), 8);
    XorOfBytes(a, b);
  }

  /** The word whose bytes are these, lowest first. */
  function WordOf(b0: byte, b1: byte, b2: byte, b3: byte): (w: Word) { Load([b0, b1, b2, b3]) }

  lemma WordOfIs(b0: byte, b1: byte, b2: byte, b3: byte)
    ensures WordOf(b0, b1, b2, b3) == OnTop(b0, OnTop(b1, OnTop(b2, OnTop(b3, 0))))
  {
    hide NatOf;
  }

  /** Exclusive or of words works on each of their bytes. */
  lemma XorOfWords(a0: byte, a1: byte, a2: byte, a3: byte, b0: byte, b1: byte, b2: byte, b3: byte)
    ensures XorW(WordOf(a0, a1, a2, a3), WordOf(b0, b1, b2, b3))
            == WordOf(Xor(a0, b0), Xor(a1, b1), Xor(a2, b2), Xor(a3, b3))
  {
    hide NatXor, OnTop, Xor, WordOf;
    WordOfIs(a0, a1, a2, a3);
    WordOfIs(b0, b1, b2, b3);
    WordOfIs(Xor(a0, b0), Xor(a1, b1), Xor(a2, b2), Xor(a3, b3));
    var x3, y3 := OnTop(a3, 0), OnTop(b3, 0);
    var x2, y2 := OnTop(a2, x3), OnTop(b2, y3);
    XorZero(0);
    XorOfLow(0, 0, a3, b3);
    XorOfLow(x3, y3, a2, b2);
    XorOfLow(x2, y2, a1, b1);
    XorOfLow(OnTop(a1, x2), OnTop(b1, y2), a0, b0);
  }

  // ----- other spellings of the rotations

  /** Parts without a common bit: exclusive or adds them. */
  lemma {:induction false} XorOfParts(a: nat, b: nat, n: nat)
    requires b < Pow2(n)
    ensures a * Pow2(n) >= 0 && NatXor(a * Pow2(n), b) == a * Pow2(n) + b
  {
    if n == 0 {
      XorZero(a);
    } else {
      XorOfParts(a, b / 2, n - 1);
      var p := a * Pow2(n - 1);
      TimesTwice(a, Pow2(n - 1));
      XorOfEven(p, b);
    }
  }

  lemma TimesTwice(a: nat, p: nat)
    ensures a * (2 * p) == 2 * (a * p) && a * p >= 0
  {
  }

  lemma XorOfEven(p: nat, b: nat)
    ensures NatXor(2 * p, b) == b % 2 + 2 * NatXor(p, b / 2)
  {
    assert (2 * p) / 2 == p && (2 * p) % 2 == 0;
  }

  lemma {:induction false} XorZero(a: nat)
    ensures NatXor(a, 0) == a
  {
    if a > 0 { XorZero(a / 2); }
  }

  /** x << n in 32 bits, with f = 2^n. */
  function ShiftLeft(x: Word, f: nat): (y: Word) { (x * f) % COUNTER_SPAN }

  /** What is left of the shifted word, and that nothing overlaps it. */
  lemma ShiftLeftIs(x: Word, A: nat, B: nat)
    requires A > 0 && B > 0 && A * B == COUNTER_SPAN
    ensures ShiftLeft(x, B) == (x % A) * B && (ShiftLeft(x, B) / B) * B == ShiftLeft(x, B)
  {
    var q, r := Split(x, A);
    DivUnique(q, A, r);
    assert x * B == q * COUNTER_SPAN + r * B by { assert q * A * B == q * (A * B); }
    MulOrder(r + 1, A, B);
    Multiply(r, B);
    DivUnique(q, COUNTER_SPAN, r * B);
    DivUnique(r, B, 0);
  }

  /** Shifted parts combined by exclusive or. */
  lemma RotateByXor(x: Word)
    ensures NatXor(ShiftLeft(x, 0x1_0000), x / 0x1_0000) == Rot16(x)
    ensures NatXor(ShiftLeft(x, 0x1000), x / 0x10_0000) == Rot12(x)
    ensures NatXor(ShiftLeft(x, 0x100), x / 0x100_0000) == Rot8(x)
    ensures NatXor(ShiftLeft(x, 0x80), x / 0x200_0000) == Rot7(x)
  {
    hide ShiftLeft, NatXor;
    Pow2Of32();
    ShiftLeftIs(x, 0x1_0000, 0x1_0000);
    ShiftLeftIs(x, 0x10_0000, 0x1000);
    ShiftLeftIs(x, 0x100_0000, 0x100);
    ShiftLeftIs(x, 0x200_0000, 0x80);
    XorOfParts(x % 0x1_0000, x / 0x1_0000, 16);
    XorOfParts(x % 0x10_0000, x / 0x10_0000, 12);
    XorOfParts(x % 0x100_0000, x / 0x100_0000, 8);
    XorOfParts(x % 0x200_0000, x / 0x200_0000, 7);
  }

  /** vsri: the low bits of `a`, below f, replaced by those of `b` shifted right. */
  function ShiftRightInsert(a: Word, b: Word, f: nat, d: nat): (y: nat)
    requires f > 0 && d > 0
  {
    DivMod(a, f);
    DivMod(b, d);
    Multiply(a / f, f);
    (a / f) * f + b / d
  }

  /** vrev32 on halfwords: the two halves of each word change places. */
  function ReverseHalves(x: Word): (y: nat) { FromHalves(x / 0x1_0000, x % 0x1_0000) }

  function FromHalves(low: nat, high: nat): (y: nat) { low + 0x1_0000 * high }

  /** Shift left, shift right and insert; and swapping halves. */
  lemma RotateByInsert(x: Word)
    ensures ReverseHalves(x) == Rot16(x)
    ensures ShiftRightInsert(ShiftLeft(x, 0x1000), x, 0x1000, 0x10_0000) == Rot12(x)
    ensures ShiftRightInsert(ShiftLeft(x, 0x100), x, 0x100, 0x100_0000) == Rot8(x)
    ensures ShiftRightInsert(ShiftLeft(x, 0x80), x, 0x80, 0x200_0000) == Rot7(x)
  {
    hide ShiftLeft;
    ShiftLeftIs(x, 0x10_0000, 0x1000);
    ShiftLeftIs(x, 0x100_0000, 0x100);
    ShiftLeftIs(x, 0x200_0000, 0x80);
  }

  /** A byte shuffle within a lane: the SSSE3 patterns 1 0 3 2 and 2 1 0 3, high byte first. */
  lemma RotateByShuffle(b0: nat, b1: nat, b2: nat, b3: nat)
    requires b0 < 256 && b1 < 256 && b2 < 256 && b3 < 256
    ensures LoadNat(b2, b3, b0, b1) == Rot16(LoadNat(b0, b1, b2, b3))
    ensures LoadNat(b3, b0, b1, b2) == Rot8(LoadNat(b0, b1, b2, b3))
  {
    DivUnique(b2 + 0x100 * b3, 0x1_0000, b0 + 0x100 * b1);
    DivUnique(b3, 0x100_0000, b0 + 0x100 * b1 + 0x1_0000 * b2);
  }
}
