/** The reference generator of test/hs/Ottery.hs, and when it agrees with the C.

    It refills lazily: a request may leave the buffer empty.  `Refill` maps a reference state
    to the state the C would be in. */
module Reference {
  import opened Prf
  import opened Machine
  import opened Arithmetic
  import E = Entropy
  import S = Session

  /** extract; splitAt of a negative count takes nothing. */
  function Extract<T>(s: State<T>, n: int): (r: Reply<T>)
    requires n <= |s.buf|
    ensures |r.out| == if n < 0 then 0 else n
  {
    Take(s, if n < 0 then 0 else n)
  }

  function GetTiny<T(!new)>(prf: Prf<T>, s: State<T>, n: nat): (r: Reply<T>)
    requires Keyed(prf, s) && n <= 8
    ensures Keyed(prf, r.state)
  {
    if n <= |s.buf| then Extract(s, n) else Extract(StirAt(prf, s.key, 0), n)
  }

  function GetSmall<T(!new)>(prf: Prf<T>, s: State<T>, n: nat): (r: Reply<T>)
    requires Keyed(prf, s) && n <= |s.buf| + prf.outputLen - prf.stateBytes
    ensures Keyed(prf, r.state)
  {
    if n <= |s.buf| then Extract(s, n)
    else
      var r := Extract(StirAt(prf, s.key, 0), n - |s.buf|);
      Reply(r.state, s.buf + r.out)
  }

  function DivRoundUp(a: nat, b: nat): (r: nat)
    requires b > 0
  {
    (a + b - 1) / b
  }

  /** How many blocks a large request generates: one more than the whole blocks it hands out
      when the rest and a key fit in one block, two more when they do not. */
  lemma CallsNeeded(sb: nat, ol: nat, m: nat)
    requires Dimensions(sb, ol)
    ensures DivRoundUp(m + sb, ol) == m / ol + (if m % ol + sb <= ol then 1 else 2)
  {
    var q, r := m / ol, m % ol;
    DivMod(m, ol);
    Multiply(q, ol);
    Multiply(q + 1, ol);
    if r + sb <= ol {
      DivUnique(q + 1, ol, r + sb - 1);
    } else {
      DivUnique(q + 2, ol, r + sb - 1 - ol);
    }
  }

  function GetLots<T(!new)>(prf: Prf<T>, s: State<T>, n: nat): (r: Reply<T>)
    requires Keyed(prf, s) && n >= |s.buf|
    ensures Keyed(prf, r.state)
  {
    var calls := DivRoundUp(n + prf.stateBytes - |s.buf|, prf.outputLen);
    CallsNeeded(prf.stateBytes, prf.outputLen, n - |s.buf|);
    DivMod(n - |s.buf|, prf.outputLen);
    Multiply((n - |s.buf|) / prf.outputLen, prf.outputLen);
    var output := Raw(prf, s.key, calls);
    var middle, lastBlock := Raw(prf, s.key, calls - 1), prf.Block(s.key, calls - 1);
    assert output == middle + lastBlock;
    var s' := State(lastBlock[..prf.stateBytes], lastBlock[prf.stateBytes..]);
    var r := Extract(s', n - |s.buf| - |middle|);
    Reply(r.state, s.buf + middle + r.out)
  }

  function GetBytes<T(!new)>(prf: Prf<T>, s: State<T>, n: nat): (r: Reply<T>)
    requires Keyed(prf, s)
    ensures Keyed(prf, r.state)
  {
    if n < |s.buf| + prf.outputLen - prf.stateBytes then GetSmall(prf, s, n) else GetLots(prf, s, n)
  }

  /** When all that is buffered has been asked for, the reference keeps the key and an empty buffer;
      the C has refilled it. */
  lemma RefillsLazily<T(!new)>(prf: Prf<T>, s: State<T>)
    requires Quiet(prf, s)
    ensures GetBytes(prf, s, |s.buf|) == Reply(State(s.key, []), s.buf)
    ensures |s.buf| <= 8 ==> GetTiny(prf, s, |s.buf|) == Reply(State(s.key, []), s.buf)
    ensures Machine.GetBytes(prf, s, |s.buf|) == Reply(StirAt(prf, s.key, 0), s.buf)
    ensures |s.buf| <= 8 ==> Tiny(prf, s, |s.buf|) == Reply(StirAt(prf, s.key, 0), s.buf)
  {
    assert s.buf + [] == s.buf;
    assert Take(StirAt(prf, s.key, 0), 0) == Reply(StirAt(prf, s.key, 0), []);
  }

  function ZeroPad(n: nat, y: seq<byte>): (r: seq<byte>)
    ensures |r| == n
  {
    (y + Zeros(n))[..n]
  }

  function AddSeed(prf: Prf<byte>, s: State<byte>, seed: seq<byte>): (r: State<byte>)
    requires Keyed(prf, s)
    ensures Quiet(prf, r)
    decreases |seed|
  {
    if seed == [] then StirAt(prf, s.key, 0)
    else
      var klen := prf.stateBytes;
      var x := prf.Block(s.key, 0)[..klen];
      var m := if |seed| > klen / 2 then klen / 2 else |seed|;
      var y' := ZeroPad(klen, seed[..m]);
      var newKey := seq(klen, i requires 0 <= i < klen => Xor(x[i], y'[i]));
      AddSeed(prf, State(newKey, []), seed[m..])
  }

  /** A Big Request as doc/specification.txt:92-108 words it, before the last refill: the key comes
      after N_BLOCKS-1 blocks of the output, where N_BLOCKS is the size of a PRF call.  Where the output
      is shorter than that, what is taken from it is what is there. */
  function DocLots<T(!new)>(prf: Prf<T>, s: State<T>, n: nat, nBlocks: nat): (r: Reply<T>)
    requires Keyed(prf, s) && n >= |s.buf| && nBlocks > 0
  {
    var output := Raw(prf, s.key, BlocksNeeded(prf, s, n));
    Multiply(nBlocks - 1, prf.outputLen);
    var cut := Clip(output, (nBlocks - 1) * prf.outputLen);
    var end := Clip(output, (nBlocks - 1) * prf.outputLen + prf.stateBytes);
    var s' := State(output[cut..end], output[end..]);
    CutFits(prf.stateBytes, prf.outputLen, n - |s.buf|, nBlocks);
    var r := Extract(s', n - |s.buf| - cut);
    Reply(r.state, s.buf + output[..cut] + r.out)
  }

  /** As many of m elements as there are. */
  function Clip<T>(s: seq<T>, m: nat): (k: nat)
    ensures k <= |s| && k <= m
  {
    if m < |s| then m else |s|
  }

  function BlocksNeeded<T(!new)>(prf: Prf<T>, s: State<T>, n: nat): (q: nat)
    requires Keyed(prf, s) && n >= |s.buf|
  {
    DivRoundUp(n + prf.stateBytes - |s.buf|, prf.outputLen)
  }

  lemma CutFits(sb: nat, ol: nat, m: nat, nBlocks: nat)
    requires Dimensions(sb, ol) && nBlocks > 0
    ensures var q := DivRoundUp(m + sb, ol);
            && 0 <= (nBlocks - 1) * ol
            && m + sb <= q * ol
            && (nBlocks <= q ==> (nBlocks - 1) * ol + sb <= q * ol)
            && (nBlocks < q ==> (nBlocks - 1) * ol < m && nBlocks * ol == (nBlocks - 1) * ol + ol <= (q - 1) * ol)
            && (nBlocks > q ==> (nBlocks - 1) * ol >= q * ol)
  {
    var q, rest := Split(m + sb + ol - 1, ol);
    DivUnique(q, ol, rest);
    Multiply(nBlocks - 1, ol);
    if nBlocks <= q {
      MulOrder(nBlocks, q, ol);
    } else {
      MulOrder(q, nBlocks - 1, ol);
    }
    if nBlocks < q {
      MulOrder(nBlocks, q - 1, ol);
      Multiply(q - 1, ol);
    }
  }

  // ----- agreement with the C

  /** A reference request gives the bytes the C gives, and the same state up to refilling. */
  ghost predicate Agrees<T(!new)>(prf: Prf<T>, s: State<T>, n: nat)
    requires Keyed(prf, s)
  {
    var c := Machine.GetBytes(prf, Refill(prf, s), n);
    var h := GetBytes(prf, s, n);
    h.out == c.out && Refill(prf, h.state) == c.state
  }

  /** What a caller can test: an empty buffer is asked for no more than one refill; otherwise the
      request is small, or what follows its whole blocks leaves room for a key in the last one. */
  predicate RoomForKey(sb: nat, ol: nat, buffered: nat, n: nat)
    requires Dimensions(sb, ol)
  {
    if buffered == 0 then n <= ol - sb
    else n < buffered + ol - sb || (n - buffered) % ol + sb <= ol
  }

  lemma TinyAgrees<T(!new)>(prf: Prf<T>, s: State<T>, k: nat)
    requires Keyed(prf, s) && 0 < k <= 8
    ensures var c := Tiny(prf, Refill(prf, s), k);
            var h := GetTiny(prf, s, k);
            h.out == c.out && Refill(prf, h.state) == c.state
  {
  }

  lemma SmallAgrees<T(!new)>(prf: Prf<T>, s: State<T>, n: nat)
    requires Keyed(prf, s) && n < |s.buf| + prf.outputLen - prf.stateBytes
    ensures Agrees(prf, s, n)
  {
    var e := Refill(prf, s);
    SmallIsServe(prf, e, n);
    if s.buf == [] {
      assert Serve(prf, e, n) == Take(e, n);
      assert [] + Take(e, n).out == Take(e, n).out;
      assert Take(e, 0).out == [];
    } else if n >= |s.buf| {
      ServePastBuffer(prf, s, n);
      assert s.buf[..|s.buf|] == s.buf;
      var u := StirAt(prf, s.key, 0);
      assert Take(u, 0) == Reply(u, []);
      assert s.buf + [] == s.buf;
    }
  }

  /** The reference answers a large request with exactly n bytes if and only if there is room
      for the key in the last block; otherwise it returns the rest of a block too, fewer bytes than a
      key has. */
  lemma LotsLength<T(!new)>(prf: Prf<T>, s: State<T>, n: nat)
    requires Keyed(prf, s) && n >= |s.buf|
    ensures var m, ol := n - |s.buf|, prf.outputLen;
            |GetLots(prf, s, n).out| ==
              if m % ol + prf.stateBytes <= ol then n else |s.buf| + (m / ol + 1) * ol
    ensures |GetLots(prf, s, n).out| == n <==> (n - |s.buf|) % prf.outputLen + prf.stateBytes <= prf.outputLen
    ensures n <= |GetLots(prf, s, n).out| < n + prf.stateBytes
  {
    var m, ol := n - |s.buf|, prf.outputLen;
    CallsNeeded(prf.stateBytes, ol, m);
    DivMod(m, ol);
    Multiply(m / ol, ol);
  }

  /** A large request whose last block has room for a key, in terms of the q and rest that split it. */
  lemma LotsAre<T(!new)>(prf: Prf<T>, s: State<T>, n: nat, q: nat, rest: nat)
    requires Keyed(prf, s) && rest + prf.stateBytes <= prf.outputLen
    requires n == |s.buf| + |Raw(prf, s.key, q)| + rest
    ensures var r := Take(StirAt(prf, s.key, q), rest);
            GetLots(prf, s, n) == Reply(r.state, s.buf + Raw(prf, s.key, q) + r.out)
  {
    hide Raw, Prf<T>.Block;
    DivUnique(q, prf.outputLen, rest);
    CallsNeeded(prf.stateBytes, prf.outputLen, n - |s.buf|);
    RawEnds(prf, s.key, q);
  }

  /** The closed form of a large request is what the C computes block by block. */
  lemma LotsAgrees<T(!new)>(prf: Prf<T>, s: State<T>, n: nat)
    requires Quiet(prf, s) && n >= |s.buf| + prf.outputLen - prf.stateBytes
    requires (n - |s.buf|) % prf.outputLen + prf.stateBytes <= prf.outputLen
    ensures Agrees(prf, s, n)
  {
    hide GetLots, Machine.GetBytes, Raw, StirAt;
    var q, rest := Split(n - |s.buf|, prf.outputLen);
    DivUnique(q, prf.outputLen, rest);
    LotsAre(prf, s, n, q, rest);
    LargeRequest(prf, s, n, q, rest);
    var u := StirAt(prf, s.key, q);
    if rest == |u.buf| {
      var v := StirAt(prf, u.key, 0);
      assert Take(v, 0) == Reply(v, []);
      assert u.buf[..rest] == u.buf + [];
    }
  }

  /** With an empty buffer, asking for exactly one refill is still the same. */
  lemma OneRefillAgrees<T(!new)>(prf: Prf<T>, s: State<T>, n: nat)
    requires Keyed(prf, s) && s.buf == [] && n == prf.outputLen - prf.stateBytes
    ensures Agrees(prf, s, n)
  {
    CallsNeeded(prf.stateBytes, prf.outputLen, n);
    DivUnique(0, prf.outputLen, n);
    var u := StirAt(prf, s.key, 0);
    SmallIsServe(prf, u, n);
    ServePastBuffer(prf, u, n);
    assert Take(StirAt(prf, u.key, 0), 0).out == [];
    assert u.buf[..n] == u.buf == u.buf + [];
  }

  /** With an empty buffer the two read a larger request from different places. */
  lemma EmptyBufferDisagrees(sb: nat, ol: nat, s: State<byte>, n: nat)
    requires Dimensions(sb, ol) && sb <= MAX_STATE_BYTES && ol <= MAX_OUTPUT_LEN
    requires |s.key| == sb && s.buf == [] && n > ol - sb
    ensures !Agrees(MarkedPrf(sb, ol), s, n)
  {
    hide GetLots, Machine.GetBytes, Raw;
    var p := MarkedPrf(sb, ol);
    var e := Refill(p, s);
    LotsLength(p, s, n);
    var q, rest := Split(n, ol);
    DivUnique(q, ol, rest);
    if rest + sb <= ol {
      LotsAre(p, s, n, q, rest);
      RawStarts(p, s.key, q);
      Multiply(q, ol);
      assert GetBytes(p, s, n).out[0] == Raw(p, s.key, q)[0] == 1;
      StartsWithBuffer(p, e, n);
      assert Machine.GetBytes(p, e, n).out[0] == e.buf[0] == 0;
    }
  }

  /** The C hands out its buffer first. */
  lemma StartsWithBuffer<T(!new)>(prf: Prf<T>, s: State<T>, n: nat)
    requires Quiet(prf, s) && n > 0
    ensures Machine.GetBytes(prf, s, n).out[0] == s.buf[0]
  {
    hide StirAt, Raw;
  }

  /** On a given reference state a request agrees for every PRF if and only if `RoomForKey`. */
  lemma RequestAgreesIff(sb: nat, ol: nat, s: State<byte>, n: nat)
    requires Dimensions(sb, ol) && sb <= MAX_STATE_BYTES && ol <= MAX_OUTPUT_LEN
    requires |s.key| == sb && |s.buf| <= ol - sb
    ensures (forall prf: Prf<byte> | OverBytes(prf) && prf.stateBytes == sb && prf.outputLen == ol ::
               Agrees(prf, s, n))
            <==> RoomForKey(sb, ol, |s.buf|, n)
  {
    if RoomForKey(sb, ol, |s.buf|, n) {
      forall prf: Prf<byte> | OverBytes(prf) && prf.stateBytes == sb && prf.outputLen == ol
        ensures Agrees(prf, s, n)
      {
        RoomAgrees(prf, s, n);
      }
    } else if s.buf == [] {
      EmptyBufferDisagrees(sb, ol, s, n);
    } else {
      var p := MarkedPrf(sb, ol);
      LotsLength(p, s, n);
      assert !Agrees(p, s, n);
    }
  }

  lemma RoomAgrees<T(!new)>(prf: Prf<T>, s: State<T>, n: nat)
    requires Keyed(prf, s) && RoomForKey(prf.stateBytes, prf.outputLen, |s.buf|, n)
    ensures Agrees(prf, s, n)
  {
    if n < |s.buf| + prf.outputLen - prf.stateBytes {
      SmallAgrees(prf, s, n);
    } else if s.buf == [] {
      OneRefillAgrees(prf, s, n);
    } else {
      LotsAgrees(prf, s, n);
    }
  }

  /** The reference add-seed pads each chunk to a key length; the C mixes in what is there. */
  lemma {:induction false} AddSeedAgrees(prf: Prf<byte>, s: State<byte>, seed: seq<byte>)
    requires OverBytes(prf) && Keyed(prf, s)
    ensures AddSeed(prf, s, seed) == Machine.AddSeed(prf, s.key, seed)
    decreases |seed|
  {
    if seed != [] {
      var klen := prf.stateBytes;
      var m := if |seed| > klen / 2 then klen / 2 else |seed|;
      var x, y' := prf.Block(s.key, 0)[..klen], ZeroPad(klen, seed[..m]);
      var newKey := seq(klen, i requires 0 <= i < klen => Xor(x[i], y'[i]));
      assert newKey == MixKey(prf, s.key, seed[..m]);
      AddSeedAgrees(prf, State(newKey, []), seed[m..]);
    }
  }

  function Next(b: byte): (r: byte) { b + 1 }

  /** A PRF whose blocks repeat the successor of the last key byte. */
  function SuccessorPrf(sb: nat, ol: nat): (p: Prf<byte>)
    requires Dimensions(sb, ol) && sb <= MAX_STATE_BYTES && ol <= MAX_OUTPUT_LEN
    ensures OverBytes(p) && p.stateBytes == sb && p.outputLen == ol
  {
    Prf(sb, ol, (k: seq<byte>, c: nat) => seq(ol, _ => if |k| == sb then Next(k[sb - 1]) else 0), Xor)
  }

  ghost predicate LastSucceeds(p: Prf<byte>) {
    && OverBytes(p)
    && forall k: seq<byte> | |k| == p.stateBytes :: p.Block(k, 0)[p.stateBytes - 1] == Next(k[p.stateBytes - 1])
  }

  /** Seed is mixed into the first half of a key only. */
  lemma LastByteOf(p: Prf<byte>, key: seq<byte>, chunk: seq<byte>)
    requires p.WellFormed() && LastSucceeds(p) && |key| == p.stateBytes && |chunk| <= p.stateBytes / 2
    ensures MixKey(p, key, chunk)[p.stateBytes - 1] == Next(key[p.stateBytes - 1])
    ensures StirAt(p, key, 0).key[p.stateBytes - 1] == Next(key[p.stateBytes - 1])
  {
  }

  lemma SuccessorsDiffer(a: byte, b: byte)
    requires a != b
    ensures Next(a) != Next(b)
  {
  }

  lemma {:induction false} SeedKeepsLastApart(p: Prf<byte>, k1: seq<byte>, k2: seq<byte>, seed: seq<byte>)
    requires p.WellFormed() && LastSucceeds(p) && |k1| == |k2| == p.stateBytes
    requires k1[p.stateBytes - 1] != k2[p.stateBytes - 1]
    ensures SeedKey(p, k1, seed)[p.stateBytes - 1] != SeedKey(p, k2, seed)[p.stateBytes - 1]
    decreases |seed|
  {
    hide StirAt, MixKey, LastSucceeds, SeedKey, Next;
    if seed == [] {
      NoSeed(p, k1);
      NoSeed(p, k2);
    } else {
      var m := FirstChunk(p.stateBytes, |seed|);
      assert seed == seed[..m] + seed[m..];
      SeedStep(p, k1, seed[..m], seed[m..]);
      SeedStep(p, k2, seed[..m], seed[m..]);
      LastByteOf(p, k1, seed[..m]);
      LastByteOf(p, k2, seed[..m]);
      SuccessorsDiffer(k1[p.stateBytes - 1], k2[p.stateBytes - 1]);
      SeedKeepsLastApart(p, MixKey(p, k1, seed[..m]), MixKey(p, k2, seed[..m]), seed[m..]);
    }
  }

  lemma ReseededApart(p: Prf<byte>, s: State<byte>, seed: seq<byte>)
    requires LastSucceeds(p) && Keyed(p, s) && s.buf == []
    ensures Machine.AddSeed(p, s.key, seed) != Machine.AddSeed(p, Refill(p, s).key, seed)
  {
    hide SeedKey, MixKey, StirAt, LastSucceeds, Next;
    var e, last := Refill(p, s), p.stateBytes - 1;
    LastByteOf(p, s.key, []);
    SuccessorDiffers(s.key[last]);
    SeedKeepsLastApart(p, s.key, e.key, seed);
    LastByteOf(p, SeedKey(p, s.key, seed), []);
    LastByteOf(p, SeedKey(p, e.key, seed), []);
    SuccessorsDiffer(SeedKey(p, s.key, seed)[last], SeedKey(p, e.key, seed)[last]);
  }

  lemma SuccessorDiffers(a: byte)
    ensures Next(a) != a
  {
  }

  /** A PRF that answers one key in one way and all other keys in another. */
  function ApartPrf(sb: nat, ol: nat, key: seq<byte>): (p: Prf<byte>)
    requires Dimensions(sb, ol) && sb <= MAX_STATE_BYTES && ol <= MAX_OUTPUT_LEN && |key| == sb
    ensures OverBytes(p) && p.stateBytes == sb && p.outputLen == ol
  {
    var last := key[sb - 1];
    Prf(sb, ol, (k: seq<byte>, c: nat) => seq(ol, _ => if k == key then Next(last) else Next(Next(last))), Xor)
  }

  ghost predicate TellsApart(p: Prf<byte>, key: seq<byte>) {
    && OverBytes(p) && |key| == p.stateBytes
    && forall k: seq<byte> | |k| == p.stateBytes ::
         p.Block(k, 0)[p.stateBytes - 1] ==
           if k == key then Next(key[p.stateBytes - 1]) else Next(Next(key[p.stateBytes - 1]))
  }

  lemma ApartBytes(p: Prf<byte>, key: seq<byte>, k: seq<byte>, chunk: seq<byte>)
    requires TellsApart(p, key) && |k| == p.stateBytes && |chunk| <= p.stateBytes / 2
    ensures MixKey(p, k, chunk)[p.stateBytes - 1] != key[p.stateBytes - 1]
    ensures StirAt(p, k, 0).key[p.stateBytes - 1] == Next(key[p.stateBytes - 1]) <==> k == key
  {
    ThreeBytes(key[p.stateBytes - 1]);
  }

  lemma ThreeBytes(a: byte)
    ensures Next(a) != a && Next(Next(a)) != a && Next(Next(a)) != Next(a)
  {
  }

  /** Once a key has been replaced, no seed brings it back. */
  lemma {:induction false} ApartStays(p: Prf<byte>, key: seq<byte>, k: seq<byte>, seed: seq<byte>)
    requires p.WellFormed() && TellsApart(p, key) && |k| == p.stateBytes
    requires seed != [] || k[p.stateBytes - 1] != key[p.stateBytes - 1]
    ensures SeedKey(p, k, seed)[p.stateBytes - 1] != key[p.stateBytes - 1]
    decreases |seed|
  {
    hide StirAt, MixKey, TellsApart, SeedKey, Next;
    if seed == [] {
      NoSeed(p, k);
    } else {
      var m := FirstChunk(p.stateBytes, |seed|);
      assert seed == seed[..m] + seed[m..];
      SeedStep(p, k, seed[..m], seed[m..]);
      ApartBytes(p, key, k, seed[..m]);
      ApartStays(p, key, MixKey(p, k, seed[..m]), seed[m..]);
    }
  }

  /** The C answers an empty seed with entropy, the reference with a Stir: some PRF shows it. */
  lemma EntropyShows(p: Prf<byte>, key: seq<byte>, k: seq<byte>, entropy: seq<byte>)
    requires p.WellFormed() && TellsApart(p, key) && |key| == |k| == p.stateBytes && entropy != []
    ensures Machine.AddSeed(p, k, entropy) != StirAt(p, key, 0)
  {
    hide StirAt, MixKey, SeedKey, TellsApart, Next;
    ApartStays(p, key, k, entropy);
    ApartBytes(p, key, SeedKey(p, k, entropy), []);
    ApartBytes(p, key, key, []);
  }

  /** The add-seed call of the C on the state it would be in does what the reference does. */
  ghost predicate SeedAgrees(prf: Prf<byte>, s: State<byte>, seed: seq<byte>, draw: E.Draw<byte>)
    requires OverBytes(prf) && Keyed(prf, s)
  {
    forall pid: int :: S.Seed(prf, S.Live(pid, Refill(prf, s)), seed, draw)
                       == S.Step(S.Live(pid, AddSeed(prf, s, seed)), S.Done([]))
  }

  /** Whatever the entropy sources do, add-seed agrees for every PRF if and only if the seed is not
      empty, since the C answers an empty one with entropy or an error, and the reference buffer is
      not empty, since the C has already replaced the key of an exhausted buffer. */
  lemma SeedAgreesIff(sb: nat, ol: nat, s: State<byte>, seed: seq<byte>, draw: E.Draw<byte>)
    requires Dimensions(sb, ol) && sb <= MAX_STATE_BYTES && ol <= MAX_OUTPUT_LEN
    requires |s.key| == sb && |s.buf| <= ol - sb
    ensures (forall prf: Prf<byte> | OverBytes(prf) && prf.stateBytes == sb && prf.outputLen == ol ::
               SeedAgrees(prf, s, seed, draw))
            <==> s.buf != [] && seed != []
  {
    if seed == [] {
      var p := ApartPrf(sb, ol, s.key);
      EmptySeedDisagrees(p, s, draw);
    } else if s.buf == [] {
      var p := SuccessorPrf(sb, ol);
      assert LastSucceeds(p);
      StaleKeyDisagrees(p, s, seed, draw);
    } else {
      forall prf: Prf<byte> | OverBytes(prf) && prf.stateBytes == sb && prf.outputLen == ol
        ensures SeedAgrees(prf, s, seed, draw)
      {
        AddSeedAgrees(prf, s, seed);
      }
    }
  }

  lemma StaleKeyDisagrees(p: Prf<byte>, s: State<byte>, seed: seq<byte>, draw: E.Draw<byte>)
    requires LastSucceeds(p) && Keyed(p, s) && s.buf == [] && seed != []
    ensures !SeedAgrees(p, s, seed, draw)
  {
    hide MixKey, SeedKey, Next;
    AddSeedAgrees(p, s, seed);
    ReseededApart(p, s, seed);
    assert S.Seed(p, S.Live(0, Refill(p, s)), seed, draw).session != S.Live(0, AddSeed(p, s, seed));
  }

  lemma EmptySeedDisagrees(p: Prf<byte>, s: State<byte>, draw: E.Draw<byte>)
    requires OverBytes(p) && TellsApart(p, s.key) && Keyed(p, s)
    ensures !SeedAgrees(p, s, [], draw)
  {
    hide MixKey, SeedKey, Next;
    var c := S.Seed(p, S.Live(0, Refill(p, s)), [], draw);
    if draw.Got? && |draw.bytes| >= p.stateBytes {
      EntropyShows(p, s.key, Refill(p, s).key, draw.bytes);
    }
    assert c != S.Step(S.Live(0, AddSeed(p, s, [])), S.Done([]));
  }

  /** "Construct" in doc/specification.txt adds the bytes after the key as a seed and stops there; the C
      stirs once more.  They agree for every PRF if and only if there are no such bytes. */
  lemma ConstructAgreesIff(sb: nat, ol: nat, entropy: seq<byte>)
    requires Dimensions(sb, ol) && sb <= MAX_STATE_BYTES && ol <= MAX_OUTPUT_LEN && |entropy| >= sb
    ensures (forall prf: Prf<byte> | OverBytes(prf) && prf.stateBytes == sb && prf.outputLen == ol ::
               Construct(prf, entropy) == Machine.AddSeed(prf, entropy[..sb], entropy[sb..]))
            <==> |entropy| == sb
  {
    if |entropy| > sb {
      var p := SuccessorPrf(sb, ol);
      assert LastSucceeds(p);
      var t := Machine.AddSeed(p, entropy[..sb], entropy[sb..]);
      LastByteOf(p, t.key, []);
      SuccessorDiffers(t.key[sb - 1]);
    }
  }

  /** In any case the C is where the document is after a request for exactly its first buffer. */
  lemma ConstructSkipsABuffer<T(!new)>(prf: Prf<T>, entropy: seq<T>)
    requires prf.WellFormed() && |entropy| > prf.stateBytes
    ensures var doc := Machine.AddSeed(prf, entropy[..prf.stateBytes], entropy[prf.stateBytes..]);
            FromBuf(prf, doc, |doc.buf|) == Reply(Construct(prf, entropy), doc.buf)
  {
    var doc := Machine.AddSeed(prf, entropy[..prf.stateBytes], entropy[prf.stateBytes..]);
    var u := StirAt(prf, doc.key, 0);
    assert Take(u, 0) == Reply(u, []);
    assert doc.buf + [] == doc.buf;
  }

  /** The document's cut is the reference's for every PRF if and only if the request needs exactly
      N_BLOCKS blocks; the Haskell puts the key after the last block but one. */
  lemma DocLotsAgreesIff(sb: nat, ol: nat, s: State<byte>, n: nat, nBlocks: nat)
    requires Dimensions(sb, ol) && sb <= MAX_STATE_BYTES && ol <= MAX_OUTPUT_LEN
    requires |s.key| == sb && |s.buf| <= ol - sb <= n && nBlocks > 0
    ensures (forall prf: Prf<byte> | OverBytes(prf) && prf.stateBytes == sb && prf.outputLen == ol ::
               DocLots(prf, s, n, nBlocks) == GetLots(prf, s, n))
            <==> nBlocks == DivRoundUp(n + sb - |s.buf|, ol)
  {
    if nBlocks == DivRoundUp(n + sb - |s.buf|, ol) {
      forall prf: Prf<byte> | OverBytes(prf) && prf.stateBytes == sb && prf.outputLen == ol
        ensures DocLots(prf, s, n, nBlocks) == GetLots(prf, s, n)
      {
        DocLotsAgrees(prf, s, n);
      }
    } else {
      var p := MarkedPrf(sb, ol);
      if nBlocks < DivRoundUp(n + sb - |s.buf|, ol) {
        DocLotsDiffers(p, s, n, nBlocks);
      } else {
        DocLotsHasNoKey(p, s, n, nBlocks);
      }
    }
  }

  /** A request that cuts the output before its last block, block q - 1. */
  function CutBeforeLast<T(!new)>(prf: Prf<T>, s: State<T>, n: nat, q: nat): (r: Reply<T>)
    requires Keyed(prf, s) && q > 0 && n - |s.buf| - |Raw(prf, s.key, q - 1)| <= prf.outputLen - prf.stateBytes
  {
    var last := prf.Block(s.key, q - 1);
    var r := Extract(State(last[..prf.stateBytes], last[prf.stateBytes..]), n - |s.buf| - |Raw(prf, s.key, q - 1)|);
    Reply(r.state, s.buf + Raw(prf, s.key, q - 1) + r.out)
  }

  lemma DocCutsBeforeLast<T(!new)>(prf: Prf<T>, s: State<T>, n: nat, q: nat)
    requires Keyed(prf, s) && n >= |s.buf| && q == BlocksNeeded(prf, s, n) > 0
    requires n - |s.buf| - |Raw(prf, s.key, q - 1)| <= prf.outputLen - prf.stateBytes
    ensures DocLots(prf, s, n, q) == CutBeforeLast(prf, s, n, q)
  {
    hide Raw, BlocksNeeded, Extract, Clip;
    RawEnds(prf, s.key, q - 1);
    CutAfter(Raw(prf, s.key, q - 1), prf.Block(s.key, q - 1), prf.stateBytes);
  }

  lemma LotsCutBeforeLast<T(!new)>(prf: Prf<T>, s: State<T>, n: nat, q: nat)
    requires Keyed(prf, s) && n >= |s.buf| && q == BlocksNeeded(prf, s, n) > 0
    requires n - |s.buf| - |Raw(prf, s.key, q - 1)| <= prf.outputLen - prf.stateBytes
    ensures GetLots(prf, s, n) == CutBeforeLast(prf, s, n, q)
  {
    hide Raw, DivRoundUp, Extract;
  }

  lemma DocLotsAgrees<T(!new)>(prf: Prf<T>, s: State<T>, n: nat)
    requires Keyed(prf, s) && n >= |s.buf| && BlocksNeeded(prf, s, n) > 0
    ensures DocLots(prf, s, n, BlocksNeeded(prf, s, n)) == GetLots(prf, s, n)
  {
    hide Raw, DocLots, GetLots, DivRoundUp, CutBeforeLast;
    var q := BlocksNeeded(prf, s, n);
    CutFits(prf.stateBytes, prf.outputLen, n - |s.buf|, q);
    Multiply(q - 1, prf.outputLen);
    DocCutsBeforeLast(prf, s, n, q);
    LotsCutBeforeLast(prf, s, n, q);
  }

  lemma CutAfter<T>(a: seq<T>, b: seq<T>, m: nat)
    requires m <= |b|
    ensures Clip(a + b, |a|) == |a| && Clip(a + b, |a| + m) == |a| + m
    ensures (a + b)[..|a|] == a && (a + b)[|a|..|a| + m] == b[..m] && (a + b)[|a| + m..] == b[m..]
  {
  }

  /** Where the document runs out of output it has no key. */
  lemma DocLotsHasNoKey<T(!new)>(prf: Prf<T>, s: State<T>, n: nat, nBlocks: nat)
    requires Keyed(prf, s) && n >= |s.buf| && nBlocks > BlocksNeeded(prf, s, n)
    ensures DocLots(prf, s, n, nBlocks).state.key == [] != GetLots(prf, s, n).state.key
  {
    hide Raw;
    CutFits(prf.stateBytes, prf.outputLen, n - |s.buf|, nBlocks);
  }

  /** Where the document puts a key byte aside, the reference hands one out. */
  lemma DocLotsDiffers(p: Prf<byte>, s: State<byte>, n: nat, nBlocks: nat)
    requires OverBytes(p) && Keyed(p, s) && n >= |s.buf| && 0 < nBlocks < BlocksNeeded(p, s, n)
    requires p.Block(s.key, nBlocks - 1)[0] != p.Block(s.key, nBlocks - 1)[p.stateBytes]
    ensures DocLots(p, s, n, nBlocks) != GetLots(p, s, n)
  {
    hide DocLots, GetLots, Raw, BlocksNeeded;
    DocLotsAt(p, s, n, nBlocks);
    LotsAt(p, s, n, nBlocks);
  }

  lemma DocLotsAt(p: Prf<byte>, s: State<byte>, n: nat, nBlocks: nat)
    requires Keyed(p, s) && n >= |s.buf| && 0 < nBlocks < BlocksNeeded(p, s, n)
    ensures var at, out := |s.buf| + (nBlocks - 1) * p.outputLen, DocLots(p, s, n, nBlocks).out;
            0 <= at < |out| && out[at] == p.Block(s.key, nBlocks - 1)[p.stateBytes]
  {
    hide Raw, DivRoundUp;
    CutFits(p.stateBytes, p.outputLen, n - |s.buf|, nBlocks);
    RawAt(p, s.key, BlocksNeeded(p, s, n), nBlocks - 1, p.stateBytes);
  }

  lemma LotsAt(p: Prf<byte>, s: State<byte>, n: nat, nBlocks: nat)
    requires Keyed(p, s) && n >= |s.buf| && 0 < nBlocks < BlocksNeeded(p, s, n)
    ensures var at, out := |s.buf| + (nBlocks - 1) * p.outputLen, GetLots(p, s, n).out;
            0 <= at < |out| && out[at] == p.Block(s.key, nBlocks - 1)[0]
  {
    hide Raw, DivRoundUp;
    var q := BlocksNeeded(p, s, n);
    CutFits(p.stateBytes, p.outputLen, n - |s.buf|, nBlocks);
    RawEnds(p, s.key, q - 1);
    RawAt(p, s.key, q - 1, nBlocks - 1, 0);
    assert GetLots(p, s, n).out[..|s.buf| + |Raw(p, s.key, q - 1)|] == s.buf + Raw(p, s.key, q - 1);
  }

  // ----- whole scripts, as test/test_spec.c and test/hs/test_ottery.hs run them

  datatype Command = Draw(wide: bool) | NBytes(n: nat) | AddHexSeed(seed: seq<byte>)

  function StepC(prf: Prf<byte>, s: State<byte>, c: Command): (r: Reply<byte>)
    requires Quiet(prf, s)
    ensures Quiet(prf, r.state)
  {
    match c
    case Draw(wide) => Tiny(prf, s, Width(wide))
    case NBytes(n) => Machine.GetBytes(prf, s, n)
    case AddHexSeed(seed) => Reply(Machine.AddSeed(prf, s.key, seed), [])
  }

  function StepHs(prf: Prf<byte>, s: State<byte>, c: Command): (r: Reply<byte>)
    requires Keyed(prf, s)
    ensures Keyed(prf, r.state)
  {
    match c
    case Draw(wide) => GetTiny(prf, s, Width(wide))
    case NBytes(n) => GetBytes(prf, s, n)
    case AddHexSeed(seed) => Reply(AddSeed(prf, s, seed), [])
  }

  /** What each command prints. */
  function DemoC(prf: Prf<byte>, s: State<byte>, cs: seq<Command>): (lines: seq<seq<byte>>)
    requires Quiet(prf, s)
    decreases |cs|
  {
    if cs == [] then []
    else
      var r := StepC(prf, s, cs[0]);
      [r.out] + DemoC(prf, r.state, cs[1..])
  }

  function DemoHs(prf: Prf<byte>, s: State<byte>, cs: seq<Command>): (lines: seq<seq<byte>>)
    requires Keyed(prf, s)
    decreases |cs|
  {
    if cs == [] then []
    else
      var r := StepHs(prf, s, cs[0]);
      [r.out] + DemoHs(prf, r.state, cs[1..])
  }

  /** When the reference reaches them, every byte request of the script has room for a key and
      every add-seed has a seed and finds a buffer that is not empty. */
  ghost predicate Roomy(prf: Prf<byte>, s: State<byte>, cs: seq<Command>)
    requires Keyed(prf, s)
    decreases |cs|
  {
    cs == [] ||
    ((cs[0].NBytes? ==> RoomForKey(prf.stateBytes, prf.outputLen, |s.buf|, cs[0].n)) &&
     (cs[0].AddHexSeed? ==> cs[0].seed != [] && s.buf != []) &&
     Roomy(prf, StepHs(prf, s, cs[0]).state, cs[1..]))
  }

  /** The two programs print the same, starting from the same key. */
  lemma {:induction false} ScriptsAgree(prf: Prf<byte>, s: State<byte>, cs: seq<Command>)
    requires OverBytes(prf) && Keyed(prf, s) && Roomy(prf, s, cs)
    ensures DemoC(prf, Refill(prf, s), cs) == DemoHs(prf, s, cs)
    decreases |cs|
  {
    if cs != [] {
      match cs[0] {
        case Draw(wide) => TinyAgrees(prf, s, Width(wide));
        case NBytes(n) => RoomAgrees(prf, s, n);
        case AddHexSeed(seed) =>
          AddSeedAgrees(prf, s, seed);
      }
      ScriptsAgree(prf, StepHs(prf, s, cs[0]).state, cs[1..]);
    }
  }
}
