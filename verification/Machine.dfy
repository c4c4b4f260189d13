/** The generator as a pure machine over states (K, BUF).

    This is the machine of doc/specification.txt with one change that the C makes: the buffer
    is refilled as soon as it is exhausted, so between calls it is never empty.  The class in
    Ottery.dfy is proved to compute these functions; Reference.dfy relates them to the lazily
    refilled machine of test/hs/Ottery.hs. */
module Machine {
  import opened Prf
  import opened Arithmetic
  import W = Words

  datatype State<T> = State(key: seq<T>, buf: seq<T>)
  datatype Reply<T> = Reply(state: State<T>, out: seq<T>)

  ghost predicate Keyed<T(!new)>(prf: Prf<T>, s: State<T>) {
    prf.WellFormed() && |s.key| == prf.stateBytes && |s.buf| <= prf.outputLen - prf.stateBytes
  }

  /** A state between two calls. */
  ghost predicate Quiet<T(!new)>(prf: Prf<T>, s: State<T>) {
    Keyed(prf, s) && s.buf != []
  }

  // ----- the operations

  /** Make a block with counter `c`; its first bytes are the new key, the rest the new buffer. */
  function StirAt<T(!new)>(prf: Prf<T>, key: seq<T>, c: nat): (s: State<T>)
    requires prf.WellFormed() && |key| == prf.stateBytes
    ensures Quiet(prf, s) && |s.buf| == prf.outputLen - prf.stateBytes
  {
    var b := prf.Block(key, c);
    State(b[..prf.stateBytes], b[prf.stateBytes..])
  }

  function Take<T>(s: State<T>, n: nat): (r: Reply<T>)
    requires n <= |s.buf|
  {
    Reply(s.(buf := s.buf[n..]), s.buf[..n])
  }

  /** Refill an exhausted buffer. */
  function Refill<T(!new)>(prf: Prf<T>, s: State<T>): (r: State<T>)
    requires Keyed(prf, s)
    ensures Quiet(prf, r)
  {
    if s.buf == [] then StirAt(prf, s.key, 0) else s
  }

  /** Bytes of the integers drawn. */
  function Width(wide: bool): (r: nat) { if wide then 8 else 4 }

  /** The integers have 32 or 64 bits. */
  lemma WidthIs(wide: bool)
    ensures 8 * Width(wide) == if wide then 64 else 32
  {
  }

  /** A draw of k bytes that never straddles two blocks. */
  function Tiny<T(!new)>(prf: Prf<T>, s: State<T>, k: nat): (r: Reply<T>)
    requires Quiet(prf, s) && k <= 8
    ensures Quiet(prf, r.state) && |r.out| == k
  {
    if k <= |s.buf| then
      var r := Take(s, k);
      Reply(Refill(prf, r.state), r.out)
    else
      Take(StirAt(prf, s.key, 0), k)
  }

  /** A request that needs at most one refill. */
  function FromBuf<T(!new)>(prf: Prf<T>, s: State<T>, n: nat): (r: Reply<T>)
    requires Quiet(prf, s) && n < |s.buf| + prf.outputLen - prf.stateBytes
    ensures Quiet(prf, r.state) && |r.out| == n
  {
    if n < |s.buf| then Take(s, n)
    else
      var r := Take(StirAt(prf, s.key, 0), n - |s.buf|);
      Reply(r.state, s.buf + r.out)
  }

  /** The length of q blocks. */
  function BlocksLength(q: nat, ol: nat): (n: nat) {
    Multiply(q, ol);
    q * ol
  }

  /** PRF(key, 0..q-1). */
  function Raw<T(!new)>(prf: Prf<T>, key: seq<T>, q: nat): (r: seq<T>)
    requires prf.WellFormed() && |key| == prf.stateBytes
    ensures |r| == BlocksLength(q, prf.outputLen)
  {
    if q == 0 then [] else Raw(prf, key, q - 1) + prf.Block(key, q - 1)
  }

  /** A byte request of any size. */
  function GetBytes<T(!new)>(prf: Prf<T>, s: State<T>, n: nat): (r: Reply<T>)
    requires Quiet(prf, s)
    ensures Quiet(prf, r.state) && |r.out| == n
  {
    if n < |s.buf| + prf.outputLen - prf.stateBytes - 1 then FromBuf(prf, s, n)
    else
      var m := n - |s.buf|;
      var q, rest := m / prf.outputLen, m % prf.outputLen;
      DivMod(m, prf.outputLen);
      var r := FromBuf(prf, StirAt(prf, s.key, q), rest);
      Reply(r.state, s.buf + Raw(prf, s.key, q) + r.out)
  }

  lemma RawEnds<T(!new)>(prf: Prf<T>, key: seq<T>, q: nat)
    requires prf.WellFormed() && |key| == prf.stateBytes
    ensures Raw(prf, key, q + 1) == Raw(prf, key, q) + prf.Block(key, q)
  {
  }

  lemma SmallRequest<T(!new)>(prf: Prf<T>, s: State<T>, n: nat)
    requires Quiet(prf, s) && n < |s.buf| + prf.outputLen - prf.stateBytes - 1
    ensures GetBytes(prf, s, n) == FromBuf(prf, s, n)
  {
  }

  /** A large request, in terms of any q and rest that split it. */
  lemma LargeRequest<T(!new)>(prf: Prf<T>, s: State<T>, n: nat, q: nat, rest: nat)
    requires Quiet(prf, s) && rest < prf.outputLen
    requires n == |s.buf| + |Raw(prf, s.key, q)| + rest
    requires n >= |s.buf| + prf.outputLen - prf.stateBytes - 1
    ensures var r := FromBuf(prf, StirAt(prf, s.key, q), rest);
            GetBytes(prf, s, n) == Reply(r.state, s.buf + Raw(prf, s.key, q) + r.out)
  {
    DivUnique(q, prf.outputLen, rest);
  }

  /** The new key made from the old one and a chunk of seed. */
  function MixKey<T(!new)>(prf: Prf<T>, key: seq<T>, chunk: seq<T>): (r: seq<T>)
    requires prf.WellFormed() && |key| == prf.stateBytes && |chunk| <= prf.stateBytes / 2
    ensures |r| == prf.stateBytes
  {
    var b := prf.Block(key, 0);
    seq(prf.stateBytes, i requires 0 <= i < prf.stateBytes => if i < |chunk| then prf.mix(b[i], chunk[i]) else b[i])
  }

  function ChunkLength(sb: nat, n: nat): (m: nat) { if n > sb / 2 then sb / 2 else n }

  /** Fold the seed into the key, half a key length at a time. */
  function SeedKey<T(!new)>(prf: Prf<T>, key: seq<T>, seed: seq<T>): (r: seq<T>)
    requires prf.WellFormed() && |key| == prf.stateBytes
    ensures |r| == prf.stateBytes
    decreases |seed|
  {
    if seed == [] then key
    else
      var m := ChunkLength(prf.stateBytes, |seed|);
      SeedKey(prf, MixKey(prf, key, seed[..m]), seed[m..])
  }

  function AddSeed<T(!new)>(prf: Prf<T>, key: seq<T>, seed: seq<T>): (s: State<T>)
    requires prf.WellFormed() && |key| == prf.stateBytes
    ensures Quiet(prf, s)
  {
    StirAt(prf, SeedKey(prf, key, seed), 0)
  }

  /** Start from the bytes of an entropy draw: the first ones are the key, the others a seed. */
  function Construct<T(!new)>(prf: Prf<T>, entropy: seq<T>): (s: State<T>)
    requires prf.WellFormed() && |entropy| >= prf.stateBytes
    ensures Quiet(prf, s)
  {
    var key, rest := entropy[..prf.stateBytes], entropy[prf.stateBytes..];
    StirAt(prf, if rest == [] then key else AddSeed(prf, key, rest).key, 0)
  }

  // ----- the stirred stream

  /** The first n bytes of the one infinite stream that a state defines: its buffer, then the
      buffer after a Stir, and so on. */
  function Serve<T(!new)>(prf: Prf<T>, s: State<T>, n: nat): (r: Reply<T>)
    requires Quiet(prf, s)
    ensures Quiet(prf, r.state) && |r.out| == n
    decreases n
  {
    if n < |s.buf| then Take(s, n)
    else
      var r := Serve(prf, StirAt(prf, s.key, 0), n - |s.buf|);
      Reply(r.state, s.buf + r.out)
  }

  /** The first of two reads stays in the buffer. */
  lemma ServeAddsHere<T(!new)>(prf: Prf<T>, s: State<T>, a: nat, b: nat)
    requires Quiet(prf, s) && a < |s.buf|
    ensures var r := Serve(prf, Take(s, a).state, b);
            Serve(prf, s, a + b) == Reply(r.state, s.buf[..a] + r.out)
  {
    hide StirAt;
    var t := Take(s, a).state;
    assert s.buf == s.buf[..a] + t.buf;
    if a + b < |s.buf| {
      assert s.buf[..a + b] == s.buf[..a] + t.buf[..b];
      assert s.buf[a + b..] == t.buf[b..];
    } else {
      var rest := Serve(prf, StirAt(prf, s.key, 0), a + b - |s.buf|);
      assert s.buf + rest.out == s.buf[..a] + (t.buf + rest.out);
    }
  }

  /** Reading a bytes and then b bytes is reading a + b bytes. */
  lemma {:induction false} ServeAdds<T(!new)>(prf: Prf<T>, s: State<T>, a: nat, b: nat)
    requires Quiet(prf, s)
    ensures var r := Serve(prf, s, a);
            var r' := Serve(prf, r.state, b);
            Serve(prf, s, a + b) == Reply(r'.state, r.out + r'.out)
    decreases a
  {
    hide StirAt;
    if a < |s.buf| {
      ServeAddsHere(prf, s, a, b);
    } else {
      var u := StirAt(prf, s.key, 0);
      ServeAdds(prf, u, a - |s.buf|, b);
      var r := Serve(prf, u, a - |s.buf|);
      var r' := Serve(prf, r.state, b);
      assert s.buf + (r.out + r'.out) == (s.buf + r.out) + r'.out;
    }
  }

  /** What follows a whole buffer of the stream is what the stirred state serves. */
  lemma ServePastBuffer<T(!new)>(prf: Prf<T>, s: State<T>, n: nat)
    requires Quiet(prf, s) && |s.buf| <= n < |s.buf| + prf.outputLen - prf.stateBytes
    ensures Serve(prf, s, n) == FromBuf(prf, s, n)
  {
    var u := StirAt(prf, s.key, 0);
    assert Serve(prf, u, n - |s.buf|) == Take(u, n - |s.buf|);
  }

  lemma SmallIsServe<T(!new)>(prf: Prf<T>, s: State<T>, n: nat)
    requires Quiet(prf, s) && n < prf.outputLen + |s.buf|
    ensures GetBytes(prf, s, n) == Serve(prf, s, n)
  {
    if n < |s.buf| {
    } else if n < |s.buf| + prf.outputLen - prf.stateBytes - 1 {
      ServePastBuffer(prf, s, n);
    } else {
      var u, m := StirAt(prf, s.key, 0), n - |s.buf|;
      DivUnique(0, prf.outputLen, m);
      if |u.buf| <= m {
        ServePastBuffer(prf, u, m);
      }
      assert FromBuf(prf, u, m) == Serve(prf, u, m);
      assert s.buf + Raw(prf, s.key, 0) == s.buf;
    }
  }

  /** A block whose key part and buffer part differ. */
  function MarkedPrf(sb: nat, ol: nat): (p: Prf<byte>)
    requires Dimensions(sb, ol) && sb <= MAX_STATE_BYTES && ol <= MAX_OUTPUT_LEN
    ensures OverBytes(p) && p.stateBytes == sb && p.outputLen == ol
  {
    Prf(sb, ol, (k: seq<byte>, c: nat) => seq(ol, i => if i < sb then 1 as byte else 0), Xor)
  }

  /** The switch from small to large requests is unobservable exactly below one block more
      than the buffer holds: from there on some PRF tells them apart. */
  lemma ThresholdIsUnobservableIff(sb: nat, ol: nat, s: State<byte>, n: nat)
    requires Dimensions(sb, ol) && sb <= MAX_STATE_BYTES && ol <= MAX_OUTPUT_LEN
    requires |s.key| == sb && 0 < |s.buf| <= ol - sb
    ensures (forall prf: Prf<byte> | OverBytes(prf) && prf.stateBytes == sb && prf.outputLen == ol ::
               GetBytes(prf, s, n) == Serve(prf, s, n))
            <==> n < ol + |s.buf|
  {
    if n < ol + |s.buf| {
      forall prf: Prf<byte> | OverBytes(prf) && prf.stateBytes == sb && prf.outputLen == ol
        ensures GetBytes(prf, s, n) == Serve(prf, s, n)
      {
        SmallIsServe(prf, s, n);
      }
    } else {
      hide GetBytes, Serve, Raw;
      var p := MarkedPrf(sb, ol);
      var q, rest := Split(n - |s.buf|, ol);
      if q == 0 { assert false; }
      RawStarts(p, s.key, q);
      Multiply(q, ol);
      LargeRequest(p, s, n, q, rest);
      assert GetBytes(p, s, n).out[|s.buf|] == Raw(p, s.key, q)[0] == 1;
      SecondBuffer(p, s, n);
      assert Serve(p, s, n).out[|s.buf|] == 0;
    }
  }

  lemma SecondBuffer<T(!new)>(prf: Prf<T>, s: State<T>, n: nat)
    requires Quiet(prf, s) && n > |s.buf|
    ensures Serve(prf, s, n).out[|s.buf|] == StirAt(prf, s.key, 0).buf[0]
  {
    hide StirAt;
    var u := StirAt(prf, s.key, 0);
    assert Serve(prf, u, n - |s.buf|).out[0] == u.buf[0];
  }

  lemma {:induction false} RawStarts<T(!new)>(prf: Prf<T>, key: seq<T>, q: nat)
    requires prf.WellFormed() && |key| == prf.stateBytes && q > 0
    ensures Raw(prf, key, q)[..prf.outputLen] == prf.Block(key, 0)
  {
    if q > 1 {
      RawStarts(prf, key, q - 1);
      assert |Raw(prf, key, q - 1)| >= prf.outputLen by { assert (q - 1) * prf.outputLen >= prf.outputLen; }
    }
  }

  /** Byte j of block c, in the concatenation of q blocks. */
  lemma {:induction false} RawAt<T(!new)>(prf: Prf<T>, key: seq<T>, q: nat, c: nat, j: nat)
    requires prf.WellFormed() && |key| == prf.stateBytes && c < q && j < prf.outputLen
    ensures 0 <= c * prf.outputLen + j < |Raw(prf, key, q)|
    ensures Raw(prf, key, q)[c * prf.outputLen + j] == prf.Block(key, c)[j]
  {
    Multiply(c, prf.outputLen);
    MulOrder(c + 1, q, prf.outputLen);
    if c < q - 1 {
      RawAt(prf, key, q - 1, c, j);
    }
  }

  // ----- runs of byte requests

  function Requests<T(!new)>(prf: Prf<T>, s: State<T>, ns: seq<nat>): (r: Reply<T>)
    requires Quiet(prf, s)
    ensures Quiet(prf, r.state)
    decreases |ns|
  {
    if ns == [] then Reply(s, [])
    else
      var r := GetBytes(prf, s, ns[0]);
      var r' := Requests(prf, r.state, ns[1..]);
      Reply(r'.state, r.out + r'.out)
  }

  /** Every request of the run is below the bound of `ThresholdIsUnobservableIff`. */
  ghost predicate AllSmall<T(!new)>(prf: Prf<T>, s: State<T>, ns: seq<nat>)
    requires Quiet(prf, s)
    decreases |ns|
  {
    ns == [] || (ns[0] < prf.outputLen + |s.buf| && AllSmall(prf, GetBytes(prf, s, ns[0]).state, ns[1..]))
  }

  function Total(ns: seq<nat>): (r: nat) { if ns == [] then 0 else ns[0] + Total(ns[1..]) }

  /** However a total is cut into such requests, the bytes and the final state are the same. */
  lemma {:induction false} ChunkingIsUnobservable<T(!new)>(prf: Prf<T>, s: State<T>, ns: seq<nat>)
    requires Quiet(prf, s) && AllSmall(prf, s, ns)
    ensures Requests(prf, s, ns) == Serve(prf, s, Total(ns))
    decreases |ns|
  {
    if ns == [] {
      assert s.buf[..0] == [] && s.buf[0..] == s.buf;
    } else {
      SmallIsServe(prf, s, ns[0]);
      ServeAdds(prf, s, ns[0], Total(ns[1..]));
      ChunkingIsUnobservable(prf, Serve(prf, s, ns[0]).state, ns[1..]);
    }
  }

  // ----- integer draws

  function Draws<T(!new)>(prf: Prf<T>, s: State<T>, k: nat, m: nat): (r: Reply<T>)
    requires Quiet(prf, s) && k <= 8
    ensures Quiet(prf, r.state)
    decreases m
  {
    if m == 0 then Reply(s, [])
    else
      var r := Tiny(prf, s, k);
      var r' := Draws(prf, r.state, k, m - 1);
      Reply(r'.state, r.out + r'.out)
  }

  /** A draw is a byte request, after discarding a remainder of fewer than k bytes. */
  lemma TinyIsServe<T(!new)>(prf: Prf<T>, s: State<T>, k: nat)
    requires Quiet(prf, s) && k <= 8
    ensures k <= |s.buf| ==> Tiny(prf, s, k) == Serve(prf, s, k)
    ensures k > |s.buf| ==> Tiny(prf, s, k) == Serve(prf, StirAt(prf, s.key, 0), k)
    ensures k > |s.buf| ==> var r := Serve(prf, s, |s.buf|); r.out == s.buf && Tiny(prf, s, k) == Serve(prf, r.state, k)
  {
    var u := StirAt(prf, s.key, 0);
    assert Take(u, 0) == Reply(u, []);
    assert Serve(prf, s, |s.buf|) == Reply(u, s.buf + []);
    assert s.buf + [] == s.buf;
  }

  lemma TinyStaysAligned<T(!new)>(prf: Prf<T>, s: State<T>, k: nat)
    requires Quiet(prf, s) && 0 < k <= 8 && |s.buf| % k == 0 && (prf.outputLen - prf.stateBytes) % k == 0
    ensures k <= |s.buf| && |Tiny(prf, s, k).state.buf| % k == 0
  {
    if |s.buf| < k {
      DivUnique(0, k, |s.buf|);
    } else {
      ModStep(|s.buf|, k);
    }
  }

  /** When k divides both the buffer and the refill, no draw discards anything: m draws are one
      request of m * k bytes. */
  lemma {:induction false} DrawsAreServe<T(!new)>(prf: Prf<T>, s: State<T>, k: nat, m: nat)
    requires Quiet(prf, s) && 0 < k <= 8 && |s.buf| % k == 0 && (prf.outputLen - prf.stateBytes) % k == 0
    ensures Draws(prf, s, k, m) == Serve(prf, s, m * k)
    ensures |Draws(prf, s, k, m).state.buf| % k == 0
    decreases m
  {
    hide Tiny, StirAt;
    if m == 0 {
      assert s.buf[..0] == [] && s.buf[0..] == s.buf;
    } else {
      TinyStaysAligned(prf, s, k);
      TinyIsServe(prf, s, k);
      DrawsAreServe(prf, Tiny(prf, s, k).state, k, m - 1);
      Multiply(m - 1, k);
      ServeAdds(prf, s, k, (m - 1) * k);
    }
  }

  // ----- add-seed

  function Zeros(n: nat): (r: seq<byte>)
    ensures |r| == n && forall i :: 0 <= i < n ==> r[i] == 0
  {
    seq(n, _ => 0)
  }

  /** Zero-padding one chunk does not change the key it makes. */
  lemma PaddedChunk(prf: Prf<byte>, key: seq<byte>, chunk: seq<byte>, z: nat)
    requires OverBytes(prf) && |key| == prf.stateBytes && |chunk| + z <= prf.stateBytes / 2
    ensures MixKey(prf, key, chunk + Zeros(z)) == MixKey(prf, key, chunk)
  {
    var b := prf.Block(key, 0);
    forall i | |chunk| <= i < |chunk| + z
      ensures prf.mix(b[i], (chunk + Zeros(z))[i]) == b[i]
    {
      assert (chunk + Zeros(z))[i] == 0;
    }
  }

  /** How many zeros pad n bytes to a multiple of h. */
  function PadLength(n: nat, h: nat): (r: nat)
    requires h > 0
  {
    if n % h == 0 then 0 else h - n % h
  }

  lemma NoSeed<T(!new)>(prf: Prf<T>, key: seq<T>)
    requires prf.WellFormed() && |key| == prf.stateBytes
    ensures SeedKey(prf, key, []) == key
  {
  }

  lemma FirstChunk(sb: nat, n: nat) returns (m: nat)
    requires sb >= 2 && n > 0
    ensures 0 < m <= n && m <= sb / 2 && (m < sb / 2 ==> m == n)
  {
    m := ChunkLength(sb, n);
  }

  /** One step of the fold. */
  lemma SeedStep<T(!new)>(prf: Prf<T>, key: seq<T>, chunk: seq<T>, rest: seq<T>)
    requires prf.WellFormed() && |key| == prf.stateBytes
    requires 0 < |chunk| <= prf.stateBytes / 2 && (|chunk| < prf.stateBytes / 2 ==> rest == [])
    ensures SeedKey(prf, key, chunk + rest) == SeedKey(prf, MixKey(prf, key, chunk), rest)
  {
    assert (chunk + rest)[..|chunk|] == chunk && (chunk + rest)[|chunk|..] == rest;
  }

  /** Folding the seed as it is equals folding the seed zero-padded to whole chunks. */
  lemma {:induction false} PaddedSeed(prf: Prf<byte>, key: seq<byte>, seed: seq<byte>)
    requires OverBytes(prf) && |key| == prf.stateBytes
    ensures SeedKey(prf, key, Padded(prf, seed)) == SeedKey(prf, key, seed)
    decreases |seed|
  {
    var h := prf.stateBytes / 2;
    var z := Zeros(PadLength(|seed|, h));
    if seed == [] {
      DivUnique(0, h, 0);
      assert seed + z == [];
    } else if |seed| > h {
      PadStep(|seed|, h);
      assert seed + z == seed[..h] + (seed[h..] + z) && seed == seed[..h] + seed[h..];
      SeedStep(prf, key, seed[..h], seed[h..] + z);
      SeedStep(prf, key, seed[..h], seed[h..]);
      PaddedSeed(prf, MixKey(prf, key, seed[..h]), seed[h..]);
    } else {
      PadLast(|seed|, h);
      PaddedChunk(prf, key, seed, |z|);
      assert seed + z + [] == seed + z && seed + [] == seed;
      SeedStep(prf, key, seed + z, []);
      SeedStep(prf, key, seed, []);
    }
  }

  function Padded(prf: Prf<byte>, seed: seq<byte>): (r: seq<byte>)
    requires prf.stateBytes >= 2
  {
    seed + Zeros(PadLength(|seed|, prf.stateBytes / 2))
  }

  /** The padded seed fills the fewest chunks that hold the seed. */
  lemma PaddedLength(prf: Prf<byte>, seed: seq<byte>)
    requires prf.stateBytes >= 2
    ensures |Padded(prf, seed)| % (prf.stateBytes / 2) == 0
    ensures |seed| <= |Padded(prf, seed)| < |seed| + prf.stateBytes / 2
    ensures Padded(prf, seed)[..|seed|] == seed && forall b <- Padded(prf, seed)[|seed|..] :: b == 0
  {
    PadsToChunks(|seed|, prf.stateBytes / 2);
  }

  /** Padding reaches the next multiple. */
  lemma PadsToChunks(n: nat, h: nat)
    requires h > 0
    ensures (n + PadLength(n, h)) % h == 0 && PadLength(n, h) < h
  {
    var q, m := Split(n, h);
    DivUnique(q, h, m);
    if m != 0 {
      Multiply(q, h);
      DivUnique(q + 1, h, 0);
    }
  }

  lemma PadStep(n: nat, h: nat)
    requires 0 < h < n
    ensures PadLength(n, h) == PadLength(n - h, h)
  {
    ModStep(n, h);
  }

  lemma PadLast(n: nat, h: nat)
    requires 0 < n <= h
    ensures n + PadLength(n, h) == h
  {
    if n < h { DivUnique(0, h, n); } else { DivUnique(1, h, 0); }
  }

  /** The bytes of a new key: those of the chunk are combined by exclusive or, bit by bit, with the
      first bytes of the block; the others are the block's. */
  lemma MixedBytes(prf: Prf<byte>, key: seq<byte>, chunk: seq<byte>)
    requires OverBytes(prf) && |key| == prf.stateBytes && |chunk| <= prf.stateBytes / 2
    ensures var k, b := MixKey(prf, key, chunk), prf.Block(key, 0);
            && (forall i | 0 <= i < |chunk| :: W.NatOf(k[i]) == W.NatXor(W.NatOf(b[i]), W.NatOf(chunk[i])))
            && (forall i | |chunk| <= i < prf.stateBytes :: k[i] == b[i])
  {
    hide W.NatOf, W.NatXor, Xor;
    var k, b := MixKey(prf, key, chunk), prf.Block(key, 0);
    forall i | 0 <= i < |chunk| ensures W.NatOf(k[i]) == W.NatXor(W.NatOf(b[i]), W.NatOf(chunk[i])) {
      W.XorOfBytes(b[i], chunk[i]);
    }
  }

  /** Adding the same chunk twice to a block gives the block. */
  lemma MixedTwice(prf: Prf<byte>, key: seq<byte>, chunk: seq<byte>, i: nat)
    requires OverBytes(prf) && |key| == prf.stateBytes && i < |chunk| <= prf.stateBytes / 2
    ensures Xor(MixKey(prf, key, chunk)[i], chunk[i]) == prf.Block(key, 0)[i]
  {
    W.XorByteTwice(prf.Block(key, 0)[i], chunk[i]);
  }

  /** For one old key, different chunks of one length make different keys. */
  lemma MixKeyIsInjective(prf: Prf<byte>, key: seq<byte>, c1: seq<byte>, c2: seq<byte>)
    requires OverBytes(prf) && |key| == prf.stateBytes && |c1| == |c2| <= prf.stateBytes / 2
    requires MixKey(prf, key, c1) == MixKey(prf, key, c2)
    ensures c1 == c2
  {
    var b := prf.Block(key, 0);
    forall i | 0 <= i < |c1| ensures c1[i] == c2[i] {
      assert MixKey(prf, key, c1)[i] == Xor(b[i], c1[i]);
      assert MixKey(prf, key, c2)[i] == Xor(b[i], c2[i]);
      XorCancels(b[i], c1[i], c2[i]);
    }
  }

  lemma XorCancels(a: byte, x: byte, y: byte)
    requires Xor(a, x) == Xor(a, y)
    ensures x == y
  {
    assert a ^ (a ^ x) == x && a ^ (a ^ y) == y;
  }
}
