/** Collecting seed bytes from a table of entropy sources (src/ottery_entropy.c).

    What a source does when it is called is a parameter: it fills its n bytes, or fails with a
    nonzero error after possibly writing some of them. */
module Entropy {
  import opened Prf
  import opened Arithmetic

  const ERR_INIT_STRONG_RNG: int := 3
  const ERR_ACCESS_STRONG_RNG: int := 4

  /** A bit mask is the set of its bits. */
  function Bits(m: nat): (f: Mask) { BitsFrom(m, 0) }

  function BitsFrom(m: nat, b: nat): (f: Mask)
    decreases m
  {
    if m == 0 then {} else (if m % 2 == 1 then {b} else {}) + BitsFrom(m / 2, b + 1)
  }

  type Mask = set<nat>

  const FL_STRONG: Mask := {0}
  const DOM_MASK: Mask := {8, 9, 10, 11, 12, 13, 14, 15}

  datatype Answer = Filled(bytes: seq<byte>) | Failed(err: int, scribble: seq<byte>)
  datatype Source = Source(flags: Mask, answer: Answer)
  datatype Config = Config(disabled: Mask, weak: Mask)

  predicate Honest(table: seq<Source>, n: nat) {
    forall i | 0 <= i < |table| ::
      match table[i].answer
      case Filled(b) => |b| == n
      case Failed(err, b) => 0 < err < 0x1000 && |b| <= n
  }

  // ----- bit masks

  predicate Meets(f: Mask, mask: Mask) { f * mask != {} }
  predicate Selected(f: Mask, select: Mask) { f * select == select }
  predicate SharesDomain(f: Mask, g: Mask) { f * (g * DOM_MASK) != {} }

  /** The flags a successful source contributes. */
  function Effective(f: Mask, weak: Mask): (r: Mask) {
    if Meets(f, weak) then f - FL_STRONG else f
  }

  lemma BitsShift(m: nat, b: nat)
    ensures BitsFrom(256 * m, b) == BitsFrom(m, b + 8)
  {
    Doubled(128 * m, b); Doubled(64 * m, b + 1); Doubled(32 * m, b + 2); Doubled(16 * m, b + 3);
    Doubled(8 * m, b + 4); Doubled(4 * m, b + 5); Doubled(2 * m, b + 6); Doubled(m, b + 7);
  }

  lemma Doubled(m: nat, b: nat)
    ensures BitsFrom(2 * m, b) == BitsFrom(m, b + 1)
  {
  }

  /** The masks of the header. */
  lemma HeaderMasks()
    ensures FL_STRONG == Bits(0x000001) && DOM_MASK == Bits(0x00ff00)
  {
    hide BitsFrom;
    BitsShift(0xff, 0);
    LowBits(8);
    LowBits(0);
  }

  lemma LowBits(b: nat)
    ensures BitsFrom(0xff, b) == {b, b + 1, b + 2, b + 3, b + 4, b + 5, b + 6, b + 7}
    ensures BitsFrom(1, b) == {b}
  {
    assert BitsFrom(0, b + 8) == {};
    assert BitsFrom(1, b + 7) == {b + 7} + BitsFrom(0, b + 8);
    assert BitsFrom(3, b + 6) == {b + 6} + BitsFrom(1, b + 7);
    assert BitsFrom(7, b + 5) == {b + 5} + BitsFrom(3, b + 6);
    assert BitsFrom(15, b + 4) == {b + 4} + BitsFrom(7, b + 5);
    assert BitsFrom(31, b + 3) == {b + 3} + BitsFrom(15, b + 4);
    assert BitsFrom(63, b + 2) == {b + 2} + BitsFrom(31, b + 3);
    assert BitsFrom(127, b + 1) == {b + 1} + BitsFrom(63, b + 2);
    assert BitsFrom(255, b) == {b} + BitsFrom(127, b + 1);
  }

  // What the tests on masks mean, bit by bit.

  /** No bit is disabled, and all selected bits are there. */
  ghost predicate Eligible(f: Mask, cfg: Config, select: Mask) {
    (forall b <- f :: b !in cfg.disabled) && (forall b <- select :: b in f)
  }

  /** Bit 0 is there, and no bit is marked weak. */
  ghost predicate CountsAsStrong(f: Mask, weak: Mask) { 0 in f && forall b <- f :: b !in weak }

  /** One of bits 8 to 15 is in both. */
  ghost predicate CommonDomain(f: Mask, g: Mask) { exists b <- f :: 8 <= b < 16 && b in g }

  lemma NoCommonBit(f: Mask, g: Mask)
    ensures f * g == {} <==> forall b <- f :: b !in g
  {
    if f * g == {} {
      forall b | b in f ensures b !in g { assert b !in f * g; }
    } else {
      var b :| b in f * g;
    }
  }

  lemma DisabledOrNot(f: Mask, cfg: Config, select: Mask)
    ensures !Meets(f, cfg.disabled) && Selected(f, select) <==> Eligible(f, cfg, select)
  {
    NoCommonBit(f, cfg.disabled);
    if Selected(f, select) {
      forall b | b in select ensures b in f { assert b in f * select; }
    }
    if forall b <- select :: b in f {
      assert f * select == select;
    }
  }

  lemma StrongOrNot(f: Mask, weak: Mask)
    ensures Meets(f, FL_STRONG) && !Meets(f, weak) <==> CountsAsStrong(f, weak)
  {
    NoCommonBit(f, weak);
    NoCommonBit(f, FL_STRONG);
  }

  lemma DomainOrNot(f: Mask, g: Mask)
    ensures SharesDomain(f, g) <==> CommonDomain(f, g)
  {
    if SharesDomain(f, g) {
      var b :| b in f * (g * DOM_MASK);
    }
    if CommonDomain(f, g) {
      var b :| b in f && 8 <= b < 16 && b in g;
      assert b in f * (g * DOM_MASK);
    }
  }

  lemma RecordOne(got: Mask, g: Mask, weak: Mask)
    ensures (got + Effective(g, weak)) * DOM_MASK == got * DOM_MASK + g * DOM_MASK
    ensures Meets(got + Effective(g, weak), FL_STRONG) <==> Meets(got, FL_STRONG) || CountsAsStrong(g, weak)
  {
    StrongOrNot(g, weak);
    var e := Effective(g, weak);
    assert e * DOM_MASK == g * DOM_MASK;
    assert (got + e) * FL_STRONG == got * FL_STRONG + e * FL_STRONG;
  }

  // ----- the scan as a fold over the table

  datatype Scan = Scan(got: Mask, lastErr: int, out: seq<byte>, called: seq<nat>, won: seq<nat>, stopped: bool)

  function Visit(s: Scan, src: Source, i: nat, cfg: Config, select: Mask, n: nat, buflen: nat): (r: Scan) {
    if s.stopped || Meets(src.flags, cfg.disabled) || !Selected(src.flags, select)
       || SharesDomain(src.flags, s.got) then s
    else if |s.out| + n > buflen then s.(stopped := true)
    else
      match src.answer
      case Filled(b) =>
        Scan(s.got + Effective(src.flags, cfg.weak), s.lastErr, s.out + b, s.called + [i], s.won + [i], false)
      case Failed(err, _) => s.(lastErr := err, called := s.called + [i])
  }

  /** The scan after the first i sources. */
  function ScanTo(table: seq<Source>, i: nat, cfg: Config, select: Mask, n: nat, buflen: nat): (r: Scan)
    requires i <= |table|
  {
    if i == 0 then Scan({}, 0, [], [], [], false)
    else Visit(ScanTo(table, i - 1, cfg, select, n, buflen), table[i - 1], i - 1, cfg, select, n, buflen)
  }

  datatype Draw<T> = NoDraw(err: int) | Got(bytes: seq<T>, flags: Mask)

  function Collect(table: seq<Source>, cfg: Config, select: Mask, n: nat, buflen: nat): (r: Draw<byte>) {
    var s := ScanTo(table, |table|, cfg, select, n, buflen);
    if !Meets(s.got, FL_STRONG) then NoDraw(if s.lastErr != 0 then s.lastErr else ERR_INIT_STRONG_RNG)
    else Got(s.out, s.got)
  }

  function BufSize(table: seq<Source>, n: nat): (r: nat) { n * |table| }

  /** The in-place collection computes the fold, whatever failing sources leave in the buffer. */
  method GetEntropy(table: seq<Source>, cfg: Config, select: Mask, bytes: array<byte>, n: nat)
    returns (err: int, buflen: nat, flagsOut: Mask)
    requires Honest(table, n)
    modifies bytes
    ensures err == 0 <==> Collect(table, cfg, select, n, bytes.Length).Got?
    ensures err != 0 ==> Collect(table, cfg, select, n, bytes.Length) == NoDraw(err) && flagsOut == {}
    ensures err == 0 ==> buflen <= bytes.Length
                         && Collect(table, cfg, select, n, bytes.Length) == Got(bytes[..buflen], flagsOut)
    ensures err != 0 ==> buflen == bytes.Length
  {
    buflen := bytes.Length;
    forall k | 0 <= k < bytes.Length { bytes[k] := 0; }
    var next, lastErr := 0, 0;
    var got: Mask := {};
    ghost var scan := ScanTo(table, 0, cfg, select, n, buflen);
    flagsOut := {};
    for i := 0 to |table|
      invariant buflen == bytes.Length && flagsOut == {}
      invariant scan == ScanTo(table, i, cfg, select, n, buflen) && !scan.stopped
      invariant got == scan.got && lastErr == scan.lastErr
      invariant next == |scan.out| <= buflen && bytes[..next] == scan.out
    {
      var f := table[i].flags;
      scan := Visit(scan, table[i], i, cfg, select, n, buflen);
      if Meets(f, cfg.disabled) { continue; }
      if !Selected(f, select) { continue; }
      if SharesDomain(f, got) { continue; }
      if next + n > buflen {
        StoppedStays(table, i + 1, cfg, select, n, buflen);
        break;
      }
      ghost var before := bytes[..next];
      match table[i].answer
      case Filled(b) =>
        Copy(bytes, next, b);
        got := got + Effective(f, cfg.weak);
        next := next + n;
        assert bytes[..next] == before + b;
      case Failed(e, b) =>
        Copy(bytes, next, b);
        assert bytes[..next] == before;
        lastErr := e;
    }
    assert scan == ScanTo(table, |table|, cfg, select, n, buflen);
    if !Meets(got, FL_STRONG) {
      err := if lastErr != 0 then lastErr else ERR_INIT_STRONG_RNG;
      return;
    }
    flagsOut := got;
    buflen := next;
    err := 0;
  }

  method Copy(a: array<byte>, at: nat, b: seq<byte>)
    requires at + |b| <= a.Length
    modifies a
    ensures a[..] == old(a[..at]) + b + old(a[at + |b|..])
  {
    forall k | 0 <= k < |b| { a[at + k] := b[k]; }
  }

  lemma {:induction false} StoppedStays(table: seq<Source>, i: nat, cfg: Config, select: Mask, n: nat, buflen: nat)
    requires i <= |table| && ScanTo(table, i, cfg, select, n, buflen).stopped
    ensures ScanTo(table, |table|, cfg, select, n, buflen) == ScanTo(table, i, cfg, select, n, buflen)
    decreases |table| - i
  {
    if i < |table| {
      StoppedStays(table, i + 1, cfg, select, n, buflen);
    }
  }

  // ----- what the fold promises

  /** The domains of the sources that succeeded. */
  function Domains(table: seq<Source>, won: seq<nat>): (r: Mask) {
    if won == [] then {}
    else
      var w := won[|won| - 1];
      Domains(table, won[..|won| - 1]) + (if w < |table| then table[w].flags * DOM_MASK else {})
  }

  lemma {:induction false} DomainsCover(table: seq<Source>, won: seq<nat>, f: Mask)
    ensures f * Domains(table, won) != {} <==> exists w <- won :: w < |table| && CommonDomain(f, table[w].flags)
  {
    if won != [] {
      var rest, w := won[..|won| - 1], won[|won| - 1];
      DomainsCover(table, rest, f);
      assert won == rest + [w];
      assert forall x :: x in won <==> x in rest || x == w;
      var d := if w < |table| then table[w].flags * DOM_MASK else {};
      assert f * Domains(table, won) == f * Domains(table, rest) + f * d;
      if w < |table| { DomainOrNot(f, table[w].flags); }
    }
  }

  ghost predicate SomeStrong(table: seq<Source>, won: seq<nat>, cfg: Config) {
    exists w <- won :: w < |table| && CountsAsStrong(table[w].flags, cfg.weak)
  }

  function Bytes(table: seq<Source>, won: seq<nat>): (r: seq<byte>) {
    if won == [] then []
    else
      var w := won[|won| - 1];
      Bytes(table, won[..|won| - 1]) + (if w < |table| && table[w].answer.Filled? then table[w].answer.bytes else [])
  }

  /** The declarative account of a scan, in terms of the table alone: who was called, whose
      domains and strength are recorded, and what was written. */
  ghost predicate Calls(table: seq<Source>, s: Scan, i: nat, cfg: Config, select: Mask) {
    && (forall j <- s.called :: j < i <= |table| && Eligible(table[j].flags, cfg, select))
    && (forall j <- s.called :: j < |table| && (table[j].answer.Filled? <==> j in s.won))
    && (forall j <- s.won :: j in s.called)
    && 0 <= s.lastErr < 0x1000
    && LastFailure(table, s.called, s.lastErr)
  }

  /** The error of the source that failed last, and 0 if none failed. */
  ghost predicate LastFailure(table: seq<Source>, called: seq<nat>, err: int) {
    if err == 0 then forall j <- called :: j < |table| ==> table[j].answer.Filled?
    else exists a: nat | a < |called| :: FailsLast(table, called, a, err)
  }

  ghost predicate FailsLast(table: seq<Source>, called: seq<nat>, a: nat, err: int)
    requires a < |called|
  {
    && called[a] < |table| && table[called[a]].answer.Failed? && table[called[a]].answer.err == err
    && forall c: nat | a < c < |called| :: called[c] < |table| ==> table[called[c]].answer.Filled?
  }

  lemma FailureGrows(table: seq<Source>, called: seq<nat>, i: nat, err: int)
    requires LastFailure(table, called, err) && i < |table|
    requires table[i].answer.Failed? ==> table[i].answer.err != 0
    ensures LastFailure(table, called + [i], if table[i].answer.Failed? then table[i].answer.err else err)
  {
    var more := called + [i];
    if table[i].answer.Failed? {
      assert FailsLast(table, more, |called|, table[i].answer.err);
    } else if err == 0 {
      forall j | j in more && j < |table| ensures table[j].answer.Filled? { if j != i { assert j in called; } }
    } else {
      var a: nat :| a < |called| && FailsLast(table, called, a, err);
      assert FailsLast(table, more, a, err);
    }
  }

  /** Success b comes later in the table than success a, from other domains. */
  ghost predicate Separate(table: seq<Source>, won: seq<nat>, a: nat, b: nat)
    requires a < b < |won|
  {
    won[a] < won[b] < |table| && !CommonDomain(table[won[b]].flags, table[won[a]].flags)
  }

  ghost predicate Apart(table: seq<Source>, s: Scan) {
    forall a: nat, b: nat | a < b < |s.won| :: Separate(table, s.won, a, b)
  }

  ghost predicate Recorded(table: seq<Source>, s: Scan, cfg: Config) {
    && s.got * DOM_MASK == Domains(table, s.won)
    && (Meets(s.got, FL_STRONG) <==> SomeStrong(table, s.won, cfg))
    && (forall b: nat :: b in s.got <==> exists w <- s.won :: w < |table| && Reports(table[w].flags, cfg.weak, b))
  }

  /** A success reports all its bits, but bit 0 only if none of them is marked weak. */
  ghost predicate Reports(f: Mask, weak: Mask, b: nat) {
    b in f && (b == 0 ==> CountsAsStrong(f, weak))
  }

  lemma EffectiveBits(f: Mask, weak: Mask, b: nat)
    ensures b in Effective(f, weak) <==> Reports(f, weak, b)
  {
    if Meets(f, weak) {
      var c :| c in f * weak;
    } else if b in f {
      forall c | c in f ensures c !in weak { assert c in weak ==> c in f * weak; }
    }
  }

  ghost predicate Written(table: seq<Source>, s: Scan, i: nat, n: nat, buflen: nat) {
    && s.out == Bytes(table, s.won) && |s.out| == n * |s.won| <= buflen && |s.won| <= i
    && (s.stopped ==> n * |table| > buflen)
  }

  lemma WonGrows(table: seq<Source>, won: seq<nat>, j: nat, cfg: Config)
    requires j < |table|
    ensures Domains(table, won + [j]) == Domains(table, won) + table[j].flags * DOM_MASK
    ensures SomeStrong(table, won + [j], cfg) <==>
              SomeStrong(table, won, cfg) || CountsAsStrong(table[j].flags, cfg.weak)
    ensures table[j].answer.Filled? ==> Bytes(table, won + [j]) == Bytes(table, won) + table[j].answer.bytes
  {
    var w := won + [j];
    assert w[..|w| - 1] == won && w[|won|] == j;
    assert forall x :: x in w <==> x in won || x == j;
  }

  lemma NothingScanned(table: seq<Source>, cfg: Config, select: Mask, n: nat, buflen: nat)
    ensures var s := ScanTo(table, 0, cfg, select, n, buflen);
            && Calls(table, s, 0, cfg, select) && Apart(table, s) && Recorded(table, s, cfg)
            && Written(table, s, 0, n, buflen)
  {
  }

  lemma {:induction false} ScanCalls(table: seq<Source>, i: nat, cfg: Config, select: Mask, n: nat, buflen: nat)
    requires Honest(table, n) && i <= |table|
    ensures Calls(table, ScanTo(table, i, cfg, select, n, buflen), i, cfg, select)
  {
    hide Calls, Visit, Honest;
    if i == 0 {
      NothingScanned(table, cfg, select, n, buflen);
    } else {
      ScanCalls(table, i - 1, cfg, select, n, buflen);
      VisitCalls(table, ScanTo(table, i - 1, cfg, select, n, buflen), i - 1, cfg, select, n, buflen);
    }
  }

  lemma {:induction false} ScanRecorded(table: seq<Source>, i: nat, cfg: Config, select: Mask, n: nat, buflen: nat)
    requires Honest(table, n) && i <= |table|
    ensures var s := ScanTo(table, i, cfg, select, n, buflen); Apart(table, s) && Recorded(table, s, cfg)
  {
    hide Calls, Apart, Recorded, Visit, Honest;
    if i == 0 {
      NothingScanned(table, cfg, select, n, buflen);
    } else {
      ScanCalls(table, i - 1, cfg, select, n, buflen);
      ScanRecorded(table, i - 1, cfg, select, n, buflen);
      VisitRecorded(table, ScanTo(table, i - 1, cfg, select, n, buflen), i - 1, cfg, select, n, buflen);
    }
  }

  lemma {:induction false} ScanWritten(table: seq<Source>, i: nat, cfg: Config, select: Mask, n: nat, buflen: nat)
    requires Honest(table, n) && i <= |table|
    ensures Written(table, ScanTo(table, i, cfg, select, n, buflen), i, n, buflen)
  {
    hide Written, Visit, Honest;
    if i == 0 {
      NothingScanned(table, cfg, select, n, buflen);
    } else {
      ScanWritten(table, i - 1, cfg, select, n, buflen);
      VisitWritten(table, ScanTo(table, i - 1, cfg, select, n, buflen), i - 1, cfg, select, n, buflen);
    }
  }

  lemma VisitCalls(table: seq<Source>, s: Scan, i: nat, cfg: Config, select: Mask, n: nat, buflen: nat)
    requires Honest(table, n) && i < |table| && Calls(table, s, i, cfg, select)
    ensures Calls(table, Visit(s, table[i], i, cfg, select, n, buflen), i + 1, cfg, select)
  {
    hide Meets, Selected, Eligible, LastFailure, Effective, SharesDomain;
    var t := Visit(s, table[i], i, cfg, select, n, buflen);
    DisabledOrNot(table[i].flags, cfg, select);
    if t.called != s.called {
      assert t.called == s.called + [i];
      assert forall j :: j in t.called <==> j in s.called || j == i;
      assert i in t.called;
      FailureGrows(table, s.called, i, s.lastErr);
    }
  }

  lemma VisitRecorded(table: seq<Source>, s: Scan, i: nat, cfg: Config, select: Mask, n: nat, buflen: nat)
    requires i < |table| && Apart(table, s) && Recorded(table, s, cfg) && Calls(table, s, i, cfg, select)
    ensures var t := Visit(s, table[i], i, cfg, select, n, buflen); Apart(table, t) && Recorded(table, t, cfg)
  {
    hide Selected, Effective, Apart, Recorded, Calls, SharesDomain, Meets;
    var f := table[i].flags;
    var t := Visit(s, table[i], i, cfg, select, n, buflen);
    if |t.won| == |s.won| {
      SameRecord(table, s, t, cfg);
    } else {
      RecordsOne(table, s, t, i, cfg);
      StaysApart(table, s, t, i, cfg, select);
    }
  }

  lemma SameRecord(table: seq<Source>, s: Scan, t: Scan, cfg: Config)
    requires Apart(table, s) && Recorded(table, s, cfg) && t.won == s.won && t.got == s.got
    ensures Apart(table, t) && Recorded(table, t, cfg)
  {
  }

  lemma RecordsOne(table: seq<Source>, s: Scan, t: Scan, i: nat, cfg: Config)
    requires i < |table| && Recorded(table, s, cfg)
    requires t.won == s.won + [i] && t.got == s.got + Effective(table[i].flags, cfg.weak)
    ensures Recorded(table, t, cfg)
  {
    hide Effective, Domains, SomeStrong, Meets, Reports;
    WonGrows(table, s.won, i, cfg);
    RecordOne(s.got, table[i].flags, cfg.weak);
    assert forall w :: w in t.won <==> w in s.won || w == i;
    forall b: nat
      ensures b in t.got <==> exists w <- t.won :: w < |table| && Reports(table[w].flags, cfg.weak, b)
    {
      EffectiveBits(table[i].flags, cfg.weak, b);
    }
  }

  lemma StaysApart(table: seq<Source>, s: Scan, t: Scan, i: nat, cfg: Config, select: Mask)
    requires i < |table| && Apart(table, s) && Recorded(table, s, cfg) && Calls(table, s, i, cfg, select)
    requires t.won == s.won + [i] && !SharesDomain(table[i].flags, s.got)
    ensures Apart(table, t)
  {
    hide Domains, SomeStrong, Meets, Selected, Reports, CommonDomain, Eligible, LastFailure;
    var f := table[i].flags;
    DomainsCover(table, s.won, f);
    assert f * Domains(table, s.won) == {};
    forall a: nat, b: nat | a < b < |t.won| ensures Separate(table, t.won, a, b) {
      var w := s.won[a];
      assert t.won[a] == w && w in s.won && w in s.called;
      if b < |s.won| {
        assert t.won[b] == s.won[b] && Separate(table, s.won, a, b);
      } else {
        assert t.won[b] == i && w < i && !CommonDomain(f, table[w].flags);
      }
    }
  }

  lemma VisitWritten(table: seq<Source>, s: Scan, i: nat, cfg: Config, select: Mask, n: nat, buflen: nat)
    requires Honest(table, n) && i < |table| && Written(table, s, i, n, buflen)
    ensures Written(table, Visit(s, table[i], i, cfg, select, n, buflen), i + 1, n, buflen)
  {
    var t := Visit(s, table[i], i, cfg, select, n, buflen);
    WonGrows(table, s.won, i, cfg);
    MulOrder(|s.won| + 1, |table|, n);
    Multiply(|s.won|, n);
    assert n * (|s.won| + 1) == n * |s.won| + n;
    if t.won != s.won {
      assert t.won == s.won + [i] && t.out == s.out + table[i].answer.bytes;
    }
  }

  /** A collection succeeds exactly when some source that succeeded is strong and not marked
      weak; then it delivers n bytes from each source that succeeded, in table order. */
  lemma CollectIff(table: seq<Source>, cfg: Config, select: Mask, n: nat, buflen: nat)
    requires Honest(table, n)
    ensures var s := ScanTo(table, |table|, cfg, select, n, buflen);
            var d := Collect(table, cfg, select, n, buflen);
            && (d.Got? <==> SomeStrong(table, s.won, cfg))
            && (d.Got? ==>
                  d.bytes == Bytes(table, s.won) && |d.bytes| == n * |s.won| && |s.won| > 0 && |d.bytes| <= buflen)
            && (d.Got? ==> forall b: nat ::
                  b in d.flags <==> exists w <- s.won :: w < |table| && Reports(table[w].flags, cfg.weak, b))
            && (d.NoDraw? ==> 0 < d.err < 0x1000)
            && (d.NoDraw? ==> LastFailure(table, s.called, d.err) ||
                              (LastFailure(table, s.called, 0) && d.err == ERR_INIT_STRONG_RNG))
  {
    hide ScanTo, LastFailure, SomeStrong, Reports, Eligible;
    ScanCalls(table, |table|, cfg, select, n, buflen);
    ScanRecorded(table, |table|, cfg, select, n, buflen);
    ScanWritten(table, |table|, cfg, select, n, buflen);
  }

  /** With the advertised buffer size no source is left out for lack of room, and a success is
      never short of one source's bytes. */
  lemma AdvertisedSizeSuffices(table: seq<Source>, cfg: Config, select: Mask, n: nat)
    requires Honest(table, n)
    ensures forall i :: 0 <= i <= |table| ==> !ScanTo(table, i, cfg, select, n, BufSize(table, n)).stopped
    ensures var d := Collect(table, cfg, select, n, BufSize(table, n));
            d.Got? ==> n <= |d.bytes|
  {
    var size := BufSize(table, n);
    forall i | 0 <= i <= |table| ensures !ScanTo(table, i, cfg, select, n, size).stopped {
      ScanWritten(table, i, cfg, select, n, size);
    }
    CollectIff(table, cfg, select, n, size);
    var won := ScanTo(table, |table|, cfg, select, n, size).won;
    if |won| > 0 {
      MulOrder(1, |won|, n);
    }
  }

  /** The advertised size is one source's bytes for each source, no more. */
  lemma AdvertisedSizeIs(table: seq<Source>, more: Source, n: nat)
    ensures BufSize([], n) == 0 && BufSize(table + [more], n) == BufSize(table, n) + n
  {
    assert n * (|table| + 1) == n * |table| + n;
  }

  lemma VisitedIff(table: seq<Source>, s: Scan, i: nat, cfg: Config, select: Mask, n: nat, buflen: nat)
    requires i < |table| && Calls(table, s, i, cfg, select) && Recorded(table, s, cfg) && !s.stopped
    requires !Visit(s, table[i], i, cfg, select, n, buflen).stopped
    ensures i in Visit(s, table[i], i, cfg, select, n, buflen).called <==>
              Eligible(table[i].flags, cfg, select) &&
              !exists j <- s.won :: j < |table| && CommonDomain(table[i].flags, table[j].flags)
  {
    hide Meets, Selected, Effective, Eligible, CommonDomain, LastFailure, Reports;
    DomainsCover(table, s.won, table[i].flags);
    DisabledOrNot(table[i].flags, cfg, select);
  }

  /** With the advertised size, exactly these sources are called: those not disabled, with the
      selected flags, and with no domain in common with an earlier success. */
  lemma CalledIff(table: seq<Source>, cfg: Config, select: Mask, n: nat, i: nat)
    requires Honest(table, n) && i < |table|
    ensures var s := ScanTo(table, |table|, cfg, select, n, BufSize(table, n));
            i in s.called <==>
              Eligible(table[i].flags, cfg, select) &&
              !exists j <- s.won :: j < i && CommonDomain(table[i].flags, table[j].flags)
  {
    hide Honest, Visit, Recorded, CommonDomain, Eligible, BufSize, LastFailure;
    var size := BufSize(table, n);
    var before, s := ScanTo(table, i, cfg, select, n, size), ScanTo(table, |table|, cfg, select, n, size);
    AdvertisedSizeSuffices(table, cfg, select, n);
    ScanCalls(table, i, cfg, select, n, size);
    ScanRecorded(table, i, cfg, select, n, size);
    assert ScanTo(table, i + 1, cfg, select, n, size) == Visit(before, table[i], i, cfg, select, n, size);
    VisitedIff(table, before, i, cfg, select, n, size);
    LaterOnly(table, i, |table|, cfg, select, n, size);
    LaterOnly(table, i + 1, |table|, cfg, select, n, size);
    assert forall j <- before.won :: j in before.called && j < i;
  }

  /** What a scan records about the first i sources does not change later. */
  lemma {:induction false} LaterOnly(table: seq<Source>, i: nat, k: nat, cfg: Config, select: Mask, n: nat, buflen: nat)
    requires i <= k <= |table|
    ensures var s := ScanTo(table, i, cfg, select, n, buflen);
            var t := ScanTo(table, k, cfg, select, n, buflen);
            && (forall j | j < i :: j in t.called <==> j in s.called)
            && (forall j | j < i :: j in t.won <==> j in s.won)
    decreases k
  {
    if i < k {
      LaterOnly(table, i, k - 1, cfg, select, n, buflen);
    }
  }
}
