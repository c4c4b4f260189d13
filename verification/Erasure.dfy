/** Symbolic bytes stand for real ones.

    Given a keystream and the bytes of the entropy draws, every term has a value, and the
    machine over bytes computes the values of what the machine over terms computes.  So what
    Provenance.dfy and Fork.dfy say about terms is about where the real bytes come from. */
module Erasure {
  import opened Prf
  import opened Machine
  import opened Arithmetic
  import E = Entropy
  import opened Session
  import opened Provenance

  /** The bytes a term stands for: keystream byte of a key, 64-byte block and offset; and
      byte of an entropy draw. */
  datatype Meaning = Meaning(keystream: (seq<byte>, nat, nat) -> byte, entropy: (int, nat, nat) -> byte)

  function Eval(m: Meaning, e: Sym): (r: byte)
    decreases e
  {
    match e
    case Literal(v) => v
    case Entropy(owner, draw, index) => m.entropy(owner, draw, index)
    case Out(key, word, off) =>
      m.keystream(seq(|key|, i requires 0 <= i < |key| => Eval(m, key[i])), word, off)
    case Mixed(b, s) => Xor(Eval(m, b), Eval(m, s))
  }

  function EvalAll(m: Meaning, s: seq<Sym>): (r: seq<byte>)
    ensures |r| == |s|
  {
    seq(|s|, i requires 0 <= i < |s| => Eval(m, s[i]))
  }

  function EvalState(m: Meaning, s: State<Sym>): (r: State<byte>) { State(EvalAll(m, s.key), EvalAll(m, s.buf)) }

  function EvalReply(m: Meaning, r: Reply<Sym>): (res: Reply<byte>) { Reply(EvalState(m, r.state), EvalAll(m, r.out)) }

  /** A PRF over bytes that reads its blocks from the keystream. */
  ghost predicate Reads(prf: Prf<byte>, sym: Prf<Sym>, m: Meaning) {
    && OverBytes(prf) && OverSymbols(sym)
    && prf.stateBytes == sym.stateBytes && prf.outputLen == sym.outputLen
    && forall k: seq<byte>, c: nat, i: nat | |k| == prf.stateBytes && c < COUNTER_SPAN && i < prf.outputLen ::
         prf.fn(k, c)[i] == KeystreamAt(m, k, c * prf.outputLen + i)
  }

  function KeystreamAt(m: Meaning, k: seq<byte>, p: nat): (r: byte) {
    m.keystream(k, (p / 64) % COUNTER_SPAN, p % 64)
  }

  lemma EvalBlock(prf: Prf<byte>, sym: Prf<Sym>, m: Meaning, key: seq<Sym>, c: nat)
    requires Reads(prf, sym, m) && |key| == prf.stateBytes
    ensures EvalAll(m, sym.Block(key, c)) == prf.Block(EvalAll(m, key), c)
  {
    var k, d := EvalAll(m, key), c % COUNTER_SPAN;
    assert sym.Block(key, c) == SymBlock(sym.outputLen, key, d);
    forall i | 0 <= i < prf.outputLen ensures Eval(m, sym.Block(key, c)[i]) == prf.Block(k, c)[i] {
      assert prf.fn(k, d)[i] == KeystreamAt(m, k, d * prf.outputLen + i);
    }
  }

  lemma EvalConcat(m: Meaning, a: seq<Sym>, b: seq<Sym>)
    ensures EvalAll(m, a + b) == EvalAll(m, a) + EvalAll(m, b)
  {
  }

  lemma EvalSplit(m: Meaning, s: seq<Sym>, n: nat)
    requires n <= |s|
    ensures EvalAll(m, s[..n]) == EvalAll(m, s)[..n] && EvalAll(m, s[n..]) == EvalAll(m, s)[n..]
  {
  }

  lemma EvalStir(prf: Prf<byte>, sym: Prf<Sym>, m: Meaning, key: seq<Sym>, c: nat)
    requires Reads(prf, sym, m) && |key| == prf.stateBytes
    ensures EvalState(m, StirAt(sym, key, c)) == StirAt(prf, EvalAll(m, key), c)
  {
    EvalBlock(prf, sym, m, key, c);
    EvalSplit(m, sym.Block(key, c), prf.stateBytes);
  }

  lemma {:induction false} EvalRaw(prf: Prf<byte>, sym: Prf<Sym>, m: Meaning, key: seq<Sym>, q: nat)
    requires Reads(prf, sym, m) && |key| == prf.stateBytes
    ensures EvalAll(m, Raw(sym, key, q)) == Raw(prf, EvalAll(m, key), q)
  {
    if q > 0 {
      EvalRaw(prf, sym, m, key, q - 1);
      EvalBlock(prf, sym, m, key, q - 1);
      EvalConcat(m, Raw(sym, key, q - 1), sym.Block(key, q - 1));
    }
  }

  lemma EvalFromBuf(prf: Prf<byte>, sym: Prf<Sym>, m: Meaning, s: State<Sym>, n: nat)
    requires Reads(prf, sym, m) && Quiet(sym, s) && n < |s.buf| + sym.outputLen - sym.stateBytes
    ensures EvalReply(m, FromBuf(sym, s, n)) == FromBuf(prf, EvalState(m, s), n)
  {
    if n < |s.buf| {
      EvalSplit(m, s.buf, n);
    } else {
      var u := StirAt(sym, s.key, 0);
      EvalStir(prf, sym, m, s.key, 0);
      EvalSplit(m, u.buf, n - |s.buf|);
      EvalConcat(m, s.buf, u.buf[..n - |s.buf|]);
    }
  }

  lemma EvalTiny(prf: Prf<byte>, sym: Prf<Sym>, m: Meaning, s: State<Sym>, k: nat)
    requires Reads(prf, sym, m) && Quiet(sym, s) && k <= 8
    ensures EvalReply(m, Tiny(sym, s, k)) == Tiny(prf, EvalState(m, s), k)
  {
    EvalStir(prf, sym, m, s.key, 0);
    if k <= |s.buf| { EvalSplit(m, s.buf, k); } else { EvalSplit(m, StirAt(sym, s.key, 0).buf, k); }
  }

  lemma EvalGetBytes(prf: Prf<byte>, sym: Prf<Sym>, m: Meaning, s: State<Sym>, n: nat)
    requires Reads(prf, sym, m) && Quiet(sym, s)
    ensures EvalReply(m, GetBytes(sym, s, n)) == GetBytes(prf, EvalState(m, s), n)
  {
    hide StirAt, FromBuf, Raw, Eval, EvalAll, GetBytes, OverSymbols, OverBytes;
    var t := EvalState(m, s);
    EvalQuiet(prf, sym, m, s);
    if n < |s.buf| + sym.outputLen - sym.stateBytes - 1 {
      SmallRequest(sym, s, n);
      SmallRequest(prf, t, n);
      EvalFromBuf(prf, sym, m, s, n);
    } else {
      var q, rest := Split(n - |s.buf|, sym.outputLen);
      LargeRequest(sym, s, n, q, rest);
      LargeRequest(prf, t, n, q, rest);
      EvalLarge(prf, sym, m, s, q, rest);
    }
  }

  lemma EvalQuiet(prf: Prf<byte>, sym: Prf<Sym>, m: Meaning, s: State<Sym>)
    requires Reads(prf, sym, m) && Quiet(sym, s)
    ensures Quiet(prf, EvalState(m, s))
  {
  }

  lemma EvalLarge(prf: Prf<byte>, sym: Prf<Sym>, m: Meaning, s: State<Sym>, q: nat, rest: nat)
    requires Reads(prf, sym, m) && Quiet(sym, s) && rest < sym.outputLen
    ensures var r := FromBuf(sym, StirAt(sym, s.key, q), rest);
            var r' := FromBuf(prf, StirAt(prf, EvalAll(m, s.key), q), rest);
            EvalState(m, r.state) == r'.state &&
            EvalAll(m, s.buf + Raw(sym, s.key, q) + r.out)
              == EvalAll(m, s.buf) + Raw(prf, EvalAll(m, s.key), q) + r'.out
  {
    var u := StirAt(sym, s.key, q);
    var r := FromBuf(sym, u, rest);
    EvalStir(prf, sym, m, s.key, q);
    EvalFromBuf(prf, sym, m, u, rest);
    EvalRaw(prf, sym, m, s.key, q);
    EvalConcat(m, s.buf + Raw(sym, s.key, q), r.out);
    EvalConcat(m, s.buf, Raw(sym, s.key, q));
  }

  lemma {:induction false} EvalSeedKey(prf: Prf<byte>, sym: Prf<Sym>, m: Meaning, key: seq<Sym>, seed: seq<Sym>)
    requires Reads(prf, sym, m) && |key| == prf.stateBytes
    ensures EvalAll(m, SeedKey(sym, key, seed)) == SeedKey(prf, EvalAll(m, key), EvalAll(m, seed))
    decreases |seed|
  {
    if seed != [] {
      var n := if |seed| > prf.stateBytes / 2 then prf.stateBytes / 2 else |seed|;
      EvalMixKey(prf, sym, m, key, seed[..n]);
      EvalSplit(m, seed, n);
      EvalSeedKey(prf, sym, m, MixKey(sym, key, seed[..n]), seed[n..]);
    }
  }

  lemma EvalMixKey(prf: Prf<byte>, sym: Prf<Sym>, m: Meaning, key: seq<Sym>, chunk: seq<Sym>)
    requires Reads(prf, sym, m) && |key| == prf.stateBytes && |chunk| <= prf.stateBytes / 2
    ensures EvalAll(m, MixKey(sym, key, chunk)) == MixKey(prf, EvalAll(m, key), EvalAll(m, chunk))
  {
    EvalBlock(prf, sym, m, key, 0);
    var b, c := sym.Block(key, 0), prf.Block(EvalAll(m, key), 0);
    forall i | 0 <= i < prf.stateBytes
      ensures Eval(m, MixKey(sym, key, chunk)[i]) == MixKey(prf, EvalAll(m, key), EvalAll(m, chunk))[i]
    {
      assert EvalAll(m, b)[i] == c[i];
    }
  }

  lemma EvalAddSeed(prf: Prf<byte>, sym: Prf<Sym>, m: Meaning, key: seq<Sym>, seed: seq<Sym>)
    requires Reads(prf, sym, m) && |key| == prf.stateBytes
    ensures EvalState(m, AddSeed(sym, key, seed)) == AddSeed(prf, EvalAll(m, key), EvalAll(m, seed))
  {
    EvalSeedKey(prf, sym, m, key, seed);
    EvalStir(prf, sym, m, SeedKey(sym, key, seed), 0);
  }

  // ----- sessions

  function EvalSession(m: Meaning, s: Session<Sym>): (r: Session<byte>) {
    match s
    case Dead => Dead
    case Live(pid, core) => Live(pid, EvalState(m, core))
  }

  function EvalDraw(m: Meaning, d: E.Draw<Sym>): (r: E.Draw<byte>) {
    match d
    case NoDraw(err) => E.NoDraw(err)
    case Got(b, flags) => E.Got(EvalAll(m, b), flags)
  }

  function EvalStep(m: Meaning, r: Step<Sym>): (res: Step<byte>) {
    Step(EvalSession(m, r.session),
         if r.outcome.Refused? then Refused(r.outcome.err) else Done(EvalAll(m, r.outcome.out)))
  }

  lemma EvalConstruct(prf: Prf<byte>, sym: Prf<Sym>, m: Meaning, entropy: seq<Sym>)
    requires Reads(prf, sym, m) && |entropy| >= prf.stateBytes
    ensures EvalState(m, Construct(sym, entropy)) == Construct(prf, EvalAll(m, entropy))
  {
    var key, rest := entropy[..prf.stateBytes], entropy[prf.stateBytes..];
    EvalSplit(m, entropy, prf.stateBytes);
    EvalAddSeed(prf, sym, m, key, rest);
    EvalStir(prf, sym, m, if rest == [] then key else AddSeed(sym, key, rest).key, 0);
  }

  /** Every call on real bytes does what the call on terms says: same refusals, and the values
      of the same bytes. */
  lemma CallsCommute(prf: Prf<byte>, sym: Prf<Sym>, m: Meaning, s: Session<Sym>, draw: E.Draw<Sym>,
                     self: int, op: Op, seed: seq<Sym>)
    requires Reads(prf, sym, m) && Sound(sym, s) && Supported(op)
    ensures EvalStep(m, Init(sym, draw, self)) == Init(prf, EvalDraw(m, draw), self)
    ensures EvalStep(m, Rand(sym, s, op, self, draw)) == Rand(prf, EvalSession(m, s), op, self, EvalDraw(m, draw))
    ensures EvalStep(m, Seed(sym, s, seed, draw)) == Seed(prf, EvalSession(m, s), EvalAll(m, seed), EvalDraw(m, draw))
  {
    hide StirAt, FromBuf, Raw, Eval, GetBytes, Tiny, AddSeed, Construct, SeedKey;
    assert EvalAll(m, []) == [];
    if draw.Got? && |draw.bytes| >= prf.stateBytes { EvalConstruct(prf, sym, m, draw.bytes); }
    var c := Check(sym, s, self, draw);
    assert EvalStep(m, c) == Check(prf, EvalSession(m, s), self, EvalDraw(m, draw));
    if c.outcome.Done? {
      match op {
        case Bytes(n) => EvalGetBytes(prf, sym, m, c.session.core, n);
        case Int(k) => EvalTiny(prf, sym, m, c.session.core, k);
      }
    }
    if s.Live? {
      EvalAddSeed(prf, sym, m, s.core.key, if seed == [] && draw.Got? then draw.bytes else seed);
    }
  }
}
