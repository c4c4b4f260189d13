/** Drawing from 0..upper by rejection (src/ottery.c:794-842).

    `span` is 2^32 or 2^64: the number of values of the integer type.  Nothing below depends on
    which, so it is any positive number. */
module Range {
  import opened Prf
  import opened Machine
  import opened Arithmetic
  import W = Words

  /** upper + 1 in the integer type: 0 when upper is the all-ones value. */
  function Limit(span: nat, upper: nat): (r: nat)
    requires upper < span
  {
    (upper + 1) % span
  }

  function Divisor(span: nat, upper: nat): (d: nat)
    requires upper < span
    ensures d > 0
  {
    var lim := Limit(span, upper);
    DivisorFits(span, upper);
    if lim != 0 then (span - 1) / lim else 1
  }

  function Reduce(span: nat, upper: nat, w: nat): (r: nat)
    requires upper < span
  {
    w / Divisor(span, upper)
  }

  predicate Accepts(span: nat, upper: nat, w: nat)
    requires upper < span
  {
    Reduce(span, upper, w) <= upper
  }

  lemma DivisorFits(span: nat, upper: nat)
    requires upper < span
    ensures var lim := Limit(span, upper);
            lim != 0 ==> lim == upper + 1 && (span - 1) / lim > 0 &&
                         lim * ((span - 1) / lim) <= span - 1 < lim * ((span - 1) / lim) + lim
    ensures Limit(span, upper) == 0 ==> span == upper + 1
  {
    if upper + 1 < span {
      DivUnique(0, span, upper + 1);
      var lim := upper + 1;
      DivMod(span - 1, lim);
      if (span - 1) / lim == 0 { assert false; }
    } else {
      DivUnique(1, span, 0);
    }
  }

  /** Every accepted value is hit by words below (upper + 1) * divisor, and these are at least
      half of all words. */
  lemma AcceptedPart(span: nat, upper: nat)
    requires upper < span
    ensures var d := Divisor(span, upper);
            (upper + 1) * d <= span && 2 * ((upper + 1) * d) >= span
  {
    DivisorFits(span, upper);
    var d := Divisor(span, upper);
    if Limit(span, upper) != 0 {
      MulOrder(1, d, upper + 1);
      assert (upper + 1) * d == d * (upper + 1);
    }
  }

  /** The divisor cuts the words into upper + 1 equal parts, as long as they can be with at least
      one word over; when upper is the largest value, every word is a part. */
  lemma DivisorIs(span: nat, upper: nat)
    requires upper < span
    ensures var d := Divisor(span, upper);
            if upper + 1 < span then (upper + 1) * d < span <= (upper + 1) * (d + 1) else d == 1
  {
    DivisorFits(span, upper);
  }

  /** The value made from a word is the part that the word is in. */
  lemma ReduceFinds(span: nat, upper: nat, w: nat, v: nat)
    requires upper < span
    ensures var d := Divisor(span, upper);
            Reduce(span, upper, w) == v <==> v * d <= w < (v + 1) * d
  {
    hide Divisor;
    QuotientIff(w, Divisor(span, upper), v);
    Multiply(v, Divisor(span, upper));
  }

  lemma QuotientIff(w: nat, d: nat, v: nat)
    requires d > 0
    ensures w / d == v <==> v * d <= w < v * d + d
  {
    DivMod(w, d);
    if v * d <= w < v * d + d {
      DivUnique(v, d, w - v * d);
    }
  }

  lemma ReduceIs(span: nat, upper: nat, w: nat)
    requires upper < span
    ensures Reduce(span, upper, w) == w / Divisor(span, upper)
  {
  }

  lemma ZeroIsAccepted(span: nat, upper: nat)
    requires upper < span
    ensures Accepts(span, upper, 0) && Reduce(span, upper, 0) == 0
  {
    QuotientIff(0, Divisor(span, upper), 0);
  }

  /** lo, lo + 1, ..., lo + len - 1. */
  function Interval(lo: nat, len: nat): (r: set<nat>) {
    if len == 0 then {} else Interval(lo, len - 1) + {lo + len - 1}
  }

  lemma {:induction false} IntervalIs(lo: nat, len: nat)
    ensures |Interval(lo, len)| == len
    ensures forall w: nat :: w in Interval(lo, len) <==> lo <= w < lo + len
  {
    if len > 0 { IntervalIs(lo, len - 1); }
  }

  function Preimage(span: nat, upper: nat, v: nat): (r: set<nat>)
    requires upper < span
  {
    set w | 0 <= w < span && Reduce(span, upper, w) == v
  }

  /** Every v in 0..upper comes from exactly `divisor` of the words: those in part number v. */
  lemma ExactlyUniform(span: nat, upper: nat, v: nat)
    requires v <= upper < span
    ensures |Preimage(span, upper, v)| == Divisor(span, upper)
    ensures var d := Divisor(span, upper);
            forall w: nat :: w in Preimage(span, upper, v) <==> v * d <= w < (v + 1) * d
  {
    var d := Divisor(span, upper);
    AcceptedPart(span, upper);
    MulOrder(v + 1, upper + 1, d);
    Multiply(v, d);
    IntervalIs(v * d, d);
    forall w: nat ensures w in Preimage(span, upper, v) <==> w in Interval(v * d, d) {
      QuotientIff(w, d, v);
    }
    assert Preimage(span, upper, v) == Interval(v * d, d);
  }

  function AcceptedWords(span: nat, upper: nat): (r: set<nat>)
    requires upper < span
  {
    set w | 0 <= w < span && Accepts(span, upper, w)
  }

  /** At least half of the words are accepted, so every draw succeeds with probability 1/2 or more. */
  lemma HalfIsAccepted(span: nat, upper: nat)
    requires upper < span
    ensures |AcceptedWords(span, upper)| == (upper + 1) * Divisor(span, upper)
    ensures 2 * |AcceptedWords(span, upper)| >= span
  {
    hide Divisor;
    var d := Divisor(span, upper);
    var n := (upper + 1) * d;
    AcceptedPart(span, upper);
    IntervalIs(0, n);
    forall w: nat ensures w in AcceptedWords(span, upper) <==> w in Interval(0, n) {
      QuotientBelow(w, d, upper);
    }
    assert AcceptedWords(span, upper) == Interval(0, n);
  }

  lemma QuotientBelow(w: nat, d: nat, upper: nat)
    requires d > 0
    ensures w / d <= upper <==> w < (upper + 1) * d
  {
    DivMod(w, d);
    var v := w / d;
    if v <= upper { MulOrder(v + 1, upper + 1, d); Multiply(v, d); } else { MulOrder(upper + 1, v, d); }
  }

  // ----- drawing until a word is accepted

  /** A little-endian integer. */
  function Value(bs: seq<byte>): (r: nat) {
    if bs == [] then 0 else bs[0] as nat + 256 * Value(bs[1..])
  }

  function Span(k: nat): (s: nat)
    ensures s > 0
  {
    if k == 0 then 1 else 256 * Span(k - 1)
  }

  lemma {:induction false} ValueFits(bs: seq<byte>)
    ensures Value(bs) < Span(|bs|)
  {
    if bs != [] { ValueFits(bs[1..]); }
  }

  /** Dividing by 256 takes the lowest byte off. */
  lemma TakesOff(b: nat, v: nat, s: nat)
    requires b < 256 && s > 0
    ensures (b + 256 * v) / (256 * s) == v / s
  {
    var q, r := Split(v, s);
    DivUnique(q, s, r);
    DivUnique(q, 256 * s, 256 * r + b);
    assert q * (256 * s) == 256 * (q * s);
  }

  /** Byte i of the integer is byte i of the buffer. */
  lemma {:induction false} ValueDigits(bs: seq<byte>, i: nat)
    requires i < |bs|
    ensures Value(bs) / Span(i) % 256 == bs[i] as nat
  {
    if i > 0 {
      hide Value;
      ValueDigits(bs[1..], i - 1);
      TakesOff(bs[0] as nat, Value(bs[1..]), Span(i - 1));
      ValueStarts(bs);
    } else {
      DivUnique(Value(bs[1..]), 256, bs[0] as nat);
    }
  }

  lemma ValueStarts(bs: seq<byte>)
    requires bs != []
    ensures Value(bs) == bs[0] as nat + 256 * Value(bs[1..])
  {
  }

  /** Four bytes make the word that a little-endian load of them gives. */
  lemma ValueIsLoad(bs: seq<byte>)
    requires |bs| == 4
    ensures Value(bs) == W.Load(bs)
  {
    ValueStarts(bs);
    ValueStarts(bs[1..]);
    ValueStarts(bs[2..]);
    ValueStarts(bs[3..]);
  }

  /** The integers have 32 or 64 bits. */
  lemma SpanIs()
    ensures Span(Width(false)) == 0x1_0000_0000 && Span(Width(true)) == 0x1_0000_0000_0000_0000
  {
    assert Span(4) == 256 * Span(3) && Span(3) == 256 * Span(2) && Span(2) == 256 * Span(1) && Span(1) == 256;
    assert Span(8) == 256 * Span(7) && Span(7) == 256 * Span(6) && Span(6) == 256 * Span(5) && Span(5) == 256 * Span(4);
  }

  datatype Pick = Rejected(state: State<byte>) | Picked(state: State<byte>, value: nat)

  /** At most `tries` draws of k bytes. */
  function Attempt(prf: Prf<byte>, s: State<byte>, k: nat, upper: nat, tries: nat): (r: Pick)
    requires Quiet(prf, s) && k <= 8 && upper < Span(k)
    ensures Quiet(prf, r.state)
    decreases tries
  {
    if tries == 0 then Rejected(s)
    else
      var r := Tiny(prf, s, k);
      var w := Value(r.out);
      if Accepts(Span(k), upper, w) then Picked(r.state, Reduce(Span(k), upper, w))
      else Attempt(prf, r.state, k, upper, tries - 1)
  }

  /** An attempt that picks does not depend on how many tries it was given. */
  lemma {:induction false} PickStays(prf: Prf<byte>, s: State<byte>, k: nat, upper: nat, few: nat, many: nat)
    requires Quiet(prf, s) && k <= 8 && upper < Span(k) && few <= many
    requires Attempt(prf, s, k, upper, few).Picked?
    ensures Attempt(prf, s, k, upper, many) == Attempt(prf, s, k, upper, few)
    decreases few
  {
    hide Tiny, Value, Span, Accepts, Reduce;
    var r := Tiny(prf, s, k);
    if !Accepts(Span(k), upper, Value(r.out)) {
      PickStays(prf, r.state, k, upper, few - 1, many - 1);
    }
  }

  /** The state after j draws, and draw number j. */
  function After(prf: Prf<byte>, s: State<byte>, k: nat, j: nat): (r: State<byte>)
    requires Quiet(prf, s) && k <= 8
    ensures Quiet(prf, r)
  {
    if j == 0 then s else Tiny(prf, After(prf, s, k, j - 1), k).state
  }

  function Word(prf: Prf<byte>, s: State<byte>, k: nat, j: nat): (r: nat)
    requires Quiet(prf, s) && k <= 8
  {
    Value(Tiny(prf, After(prf, s, k, j), k).out)
  }

  lemma {:induction false} AfterShifts(prf: Prf<byte>, s: State<byte>, k: nat, j: nat)
    requires Quiet(prf, s) && k <= 8
    ensures After(prf, s, k, j + 1) == After(prf, Tiny(prf, s, k).state, k, j)
  {
    if j > 0 { AfterShifts(prf, s, k, j - 1); }
  }

  /** The result comes from the first accepted word of the integer stream, and the state is the
      one right after that word: nothing more is drawn. */
  lemma {:induction false} PicksTheFirst(prf: Prf<byte>, s: State<byte>, k: nat, upper: nat, tries: nat, j: nat)
    requires Quiet(prf, s) && k <= 8 && upper < Span(k) && j < tries
    requires Accepts(Span(k), upper, Word(prf, s, k, j))
    requires forall i | 0 <= i < j :: !Accepts(Span(k), upper, Word(prf, s, k, i))
    ensures Attempt(prf, s, k, upper, tries)
            == Picked(After(prf, s, k, j + 1), Reduce(Span(k), upper, Word(prf, s, k, j)))
    ensures Attempt(prf, s, k, upper, tries).value <= upper
    decreases tries
  {
    hide Tiny, Value, Span, Reduce;
    if j > 0 {
      var t := Tiny(prf, s, k).state;
      assert !Accepts(Span(k), upper, Word(prf, s, k, 0));
      AfterShifts(prf, s, k, j);
      AfterShifts(prf, s, k, j - 1);
      forall i | 0 <= i < j - 1
        ensures !Accepts(Span(k), upper, Word(prf, t, k, i))
      {
        AfterShifts(prf, s, k, i);
        assert Word(prf, s, k, i + 1) == Word(prf, t, k, i);
      }
      PicksTheFirst(prf, t, k, upper, tries - 1, j - 1);
    } else {
      assert After(prf, s, k, 1) == Tiny(prf, s, k).state;
    }
  }

  /** The value v of a word, and that a word is refused, in terms of the parts. */
  lemma PartsDecide(span: nat, upper: nat, w: nat)
    requires upper < span
    ensures var d, v := Divisor(span, upper), Reduce(span, upper, w);
            v * d <= w < (v + 1) * d
    ensures Accepts(span, upper, w) <==> w < (upper + 1) * Divisor(span, upper)
  {
    ReduceFinds(span, upper, w, Reduce(span, upper, w));
    QuotientBelow(w, Divisor(span, upper), upper);
  }

  /** Conversely, every result comes from a word in the part that it names, and all words before
      that one are in no part. */
  lemma {:induction false} PickIsTheFirst(prf: Prf<byte>, s: State<byte>, k: nat, upper: nat, tries: nat)
    returns (j: nat)
    requires Quiet(prf, s) && k <= 8 && upper < Span(k) && Attempt(prf, s, k, upper, tries).Picked?
    ensures j < tries && Attempt(prf, s, k, upper, tries).state == After(prf, s, k, j + 1)
    ensures var d, v := Divisor(Span(k), upper), Attempt(prf, s, k, upper, tries).value;
            v <= upper && v * d <= Word(prf, s, k, j) < (v + 1) * d
    ensures forall i | 0 <= i < j :: Word(prf, s, k, i) >= (upper + 1) * Divisor(Span(k), upper)
    decreases tries
  {
    hide Tiny, Value, Span, Reduce, Divisor;
    PartsDecide(Span(k), upper, Word(prf, s, k, 0));
    var t := Tiny(prf, s, k).state;
    if Accepts(Span(k), upper, Word(prf, s, k, 0)) {
      j := 0;
      assert After(prf, s, k, 1) == t;
    } else {
      var j' := PickIsTheFirst(prf, t, k, upper, tries - 1);
      j := j' + 1;
      AfterShifts(prf, s, k, j);
      forall i | 0 <= i <= j' ensures Word(prf, s, k, i + 1) == Word(prf, t, k, i) {
        AfterShifts(prf, s, k, i);
      }
      forall i | 0 <= i < j ensures Word(prf, s, k, i) >= (upper + 1) * Divisor(Span(k), upper) {
        if i > 0 { assert Word(prf, s, k, i) == Word(prf, t, k, i - 1); }
      }
    }
  }
}
