/** Exactly which keys stay apart from the bytes handed out, whoever made them and in whatever state.

    A key is made from the head of a block, its first SB bytes.  A Stir keeps the head of a block from
    being handed out; only a request for whole blocks hands it out.  So a key made from the head of the
    first block under some key is apart from all bytes of a run if and only if no request of the run
    takes whole blocks from that key. */
module Heads {
  import opened Prf
  import opened Machine
  import opened Arithmetic
  import opened Session
  import opened Provenance
  import opened Fork
  import opened Keys

  // ----- heads and tails

  /** No byte is from the head of the first block under `key`. */
  ghost predicate NoHead(sb: nat, bytes: seq<Sym>, key: seq<Sym>) {
    forall e <- bytes :: e.Out? && (e.key == key ==> Position(e) >= sb)
  }

  /** The whole head is there. */
  ghost predicate AllHead(sb: nat, bytes: seq<Sym>, key: seq<Sym>) {
    forall i | 0 <= i < sb :: KeystreamByte(key, i) in bytes
  }

  /** No byte is from the head of any first block. */
  ghost predicate Tail(sb: nat, bytes: seq<Sym>) {
    forall e <- bytes :: e.Out? && Position(e) >= sb
  }

  lemma NoHeadJoin(sb: nat, a: seq<Sym>, b: seq<Sym>, key: seq<Sym>)
    requires NoHead(sb, a, key) && NoHead(sb, b, key)
    ensures NoHead(sb, a + b, key)
  {
  }

  lemma AllHeadJoin(sb: nat, a: seq<Sym>, b: seq<Sym>, key: seq<Sym>)
    requires AllHead(sb, a, key) || AllHead(sb, b, key)
    ensures AllHead(sb, a + b, key)
  {
  }

  lemma TailHasNoHead(sb: nat, bytes: seq<Sym>, key: seq<Sym>)
    requires Tail(sb, bytes)
    ensures NoHead(sb, bytes, key)
  {
  }

  lemma StirTail(prf: Prf<Sym>, key: seq<Sym>, c: nat)
    requires OverSymbols(prf) && |key| == prf.stateBytes && (c + 1) * prf.outputLen <= KEYSTREAM
    ensures Tail(prf.stateBytes, StirAt(prf, key, c).buf)
  {
    hide BlockAt, SymBlock;
    Multiply(c, prf.outputLen);
    BlockIsAt(prf, key, c);
    BlockRanks(prf.Block(key, c), key, c * prf.outputLen);
  }

  lemma FirstStirTail(prf: Prf<Sym>, key: seq<Sym>)
    requires OverSymbols(prf) && |key| == prf.stateBytes
    ensures Tail(prf.stateBytes, StirAt(prf, key, 0).buf)
  {
    hide StirAt, Tail;
    StirTail(prf, key, 0);
  }

  lemma {:induction false} RawHead(prf: Prf<Sym>, key: seq<Sym>, q: nat)
    requires OverSymbols(prf) && |key| == prf.stateBytes && q * prf.outputLen <= KEYSTREAM
    ensures forall e <- Raw(prf, key, q) :: e.Out? && e.key == key
    ensures q > 0 ==> AllHead(prf.stateBytes, Raw(prf, key, q), key)
  {
    hide BlockAt, SymBlock;
    if q > 0 {
      Multiply(q - 1, prf.outputLen);
      RawHead(prf, key, q - 1);
      BlockIsAt(prf, key, q - 1);
      BlockRanks(prf.Block(key, q - 1), key, (q - 1) * prf.outputLen);
      if q == 1 {
        MadeHere(prf, key);
        assert Raw(prf, key, 0) + prf.Block(key, 0) == prf.Block(key, 0);
      } else {
        AllHeadJoin(prf.stateBytes, Raw(prf, key, q - 1), prf.Block(key, q - 1), key);
      }
    }
  }

  // ----- one request

  /** At least one whole block follows the buffered bytes. */
  predicate TakesBlocks(ol: nat, buffered: nat, n: nat) { n >= buffered + ol }

  lemma FromBufHeads(prf: Prf<Sym>, s: State<Sym>, n: nat, key: seq<Sym>)
    requires OverSymbols(prf) && Quiet(prf, s) && n < |s.buf| + prf.outputLen - prf.stateBytes
    ensures NoHead(prf.stateBytes, s.buf, key) ==> NoHead(prf.stateBytes, FromBuf(prf, s, n).out, key)
    ensures Tail(prf.stateBytes, s.buf) ==> Tail(prf.stateBytes, FromBuf(prf, s, n).state.buf)
  {
    hide StirAt, OverSymbols;
    FirstStirTail(prf, s.key);
  }

  lemma LargeHeads(prf: Prf<Sym>, s: State<Sym>, q: nat, rest: nat, key: seq<Sym>)
    requires OverSymbols(prf) && Quiet(prf, s) && rest < prf.outputLen && (q + 1) * prf.outputLen <= KEYSTREAM
    requires NoHead(prf.stateBytes, s.buf, key)
    ensures var r := FromBuf(prf, StirAt(prf, s.key, q), rest);
            var out := s.buf + Raw(prf, s.key, q) + r.out;
            && (if q > 0 && s.key == key then AllHead(prf.stateBytes, out, key) else NoHead(prf.stateBytes, out, key))
            && Tail(prf.stateBytes, r.state.buf)
  {
    hide StirAt, FromBuf, Raw, OverSymbols, NoHead, AllHead, Tail;
    var sb, raw, u := prf.stateBytes, Raw(prf, s.key, q), StirAt(prf, s.key, q);
    var r := FromBuf(prf, u, rest);
    Multiply(q, prf.outputLen);
    RawHead(prf, s.key, q);
    StirTail(prf, s.key, q);
    TailHasNoHead(sb, u.buf, key);
    FromBufHeads(prf, u, rest, key);
    if q > 0 && s.key == key {
      AllHeadJoin(sb, s.buf, raw, key);
      AllHeadJoin(sb, s.buf + raw, r.out, key);
    } else {
      if q == 0 { RawIsEmpty(prf, s.key); }
      OtherKeyNoHead(sb, raw, s.key, key);
      NoHeadJoin(sb, s.buf, raw, key);
      NoHeadJoin(sb, s.buf + raw, r.out, key);
    }
  }

  lemma RawIsEmpty(prf: Prf<Sym>, key: seq<Sym>)
    requires prf.WellFormed() && |key| == prf.stateBytes
    ensures Raw(prf, key, 0) == []
  {
  }

  lemma OtherKeyNoHead(sb: nat, bytes: seq<Sym>, made: seq<Sym>, key: seq<Sym>)
    requires forall e <- bytes :: e.Out? && e.key == made
    requires made != key || bytes == []
    ensures NoHead(sb, bytes, key)
  {
  }

  /** A request hands out the head under its key if and only if it takes whole blocks, and no head under
      another key. */
  lemma BytesHeads(prf: Prf<Sym>, s: State<Sym>, n: nat, key: seq<Sym>)
    requires OverSymbols(prf) && Quiet(prf, s) && Fits(prf.outputLen, |s.buf|, n) && NoHead(prf.stateBytes, s.buf, key)
    ensures var r := GetBytes(prf, s, n);
            && (if TakesBlocks(prf.outputLen, |s.buf|, n) && s.key == key then AllHead(prf.stateBytes, r.out, key)
                else NoHead(prf.stateBytes, r.out, key))
            && (Tail(prf.stateBytes, s.buf) ==> Tail(prf.stateBytes, r.state.buf))
  {
    hide StirAt, FromBuf, GetBytes, Raw, Fits, OverSymbols, NoHead, AllHead, Tail;
    if n < |s.buf| + prf.outputLen - prf.stateBytes - 1 {
      SmallRequest(prf, s, n);
      FromBufHeads(prf, s, n, key);
    } else {
      var q, rest := Arithmetic.Split(n - |s.buf|, prf.outputLen);
      Multiply(q, prf.outputLen);
      FitsSplit(prf.outputLen, |s.buf|, n, q, rest);
      LargeRequest(prf, s, n, q, rest);
      LargeHeads(prf, s, q, rest, key);
    }
  }

  lemma TinyHeads(prf: Prf<Sym>, s: State<Sym>, k: nat, key: seq<Sym>)
    requires OverSymbols(prf) && Quiet(prf, s) && k <= 8 && NoHead(prf.stateBytes, s.buf, key)
    ensures NoHead(prf.stateBytes, Tiny(prf, s, k).out, key)
    ensures Tail(prf.stateBytes, s.buf) ==> Tail(prf.stateBytes, Tiny(prf, s, k).state.buf)
  {
    hide StirAt, OverSymbols;
    FirstStirTail(prf, s.key);
  }

  // ----- a key made from a head

  function Parent(k: seq<Sym>): (key: seq<Sym>)
    requires HasParent(k)
  {
    k[|k| - 1].key
  }

  /** `k` was made from the head of the first block under `key`, with or without seed. */
  ghost predicate MadeFromHead(sb: nat, k: seq<Sym>, key: seq<Sym>) {
    |k| == sb && forall i | 0 <= i < sb :: Source(k[i]) == KeystreamByte(key, i)
  }

  lemma ApartWithoutHead(prf: Prf<Sym>, bytes: seq<Sym>, k: seq<Sym>, key: seq<Sym>)
    requires prf.WellFormed() && MadeFromHead(prf.stateBytes, k, key) && NoHead(prf.stateBytes, bytes, key)
    ensures Avoids(bytes, k)
  {
    hide KeystreamByte, Position;
    forall i, e | 0 <= i < |k| && e in bytes ensures Source(k[i]) != e {
      HeadPlace(key, i);
    }
  }

  lemma HeadPlace(key: seq<Sym>, i: nat)
    requires i < MAX_STATE_BYTES
    ensures var e := KeystreamByte(key, i); e.Out? && e.key == key && Position(e) == i
  {
    PositionOfKeystream(key, i);
  }

  lemma SharedWithHead(prf: Prf<Sym>, bytes: seq<Sym>, k: seq<Sym>, key: seq<Sym>)
    requires prf.WellFormed() && MadeFromHead(prf.stateBytes, k, key) && AllHead(prf.stateBytes, bytes, key)
    ensures !Avoids(bytes, k)
  {
    hide KeystreamByte;
    assert Source(k[0]) == KeystreamByte(key, 0) && KeystreamByte(key, 0) in bytes;
  }

  lemma MixedFromHead(prf: Prf<Sym>, key: seq<Sym>, chunk: seq<Sym>)
    requires OverSymbols(prf) && |key| == prf.stateBytes && |chunk| <= prf.stateBytes / 2
    ensures MadeFromHead(prf.stateBytes, MixKey(prf, key, chunk), key)
    ensures HasParent(MixKey(prf, key, chunk)) && Parent(MixKey(prf, key, chunk)) == key
  {
    MadeHere(prf, key);
  }

  lemma StirredFromHead(prf: Prf<Sym>, key: seq<Sym>)
    requires OverSymbols(prf) && |key| == prf.stateBytes
    ensures var k := StirAt(prf, key, 0).key;
            MadeFromHead(prf.stateBytes, k, key) && HasParent(k) && Parent(k) == key
  {
    MadeHere(prf, key);
  }

  /** The key that add-seed makes first stays apart from a request on the state it was made from, and from
      all that was handed out before, if and only if the request takes no whole block. */
  lemma FedKeyIsApartIff(prf: Prf<Sym>, log: seq<Sym>, core: State<Sym>, chunk: seq<Sym>, n: nat)
    requires OverSymbols(prf) && Quiet(prf, core) && Inv(log, core, 0)
    requires |chunk| <= prf.stateBytes / 2 && Fits(prf.outputLen, |core.buf|, n)
    ensures Avoids(log + GetBytes(prf, core, n).out, MixKey(prf, core.key, chunk)) <==> n < |core.buf| + prf.outputLen
  {
    hide OverSymbols, Inv, GetBytes, MixKey, NoHead, AllHead, MadeFromHead, Fits;
    var sb, k, out := prf.stateBytes, MixKey(prf, core.key, chunk), GetBytes(prf, core, n).out;
    MixedFromHead(prf, core.key, chunk);
    NothingYet(sb, log, core);
    BytesHeads(prf, core, n, core.key);
    if n < |core.buf| + prf.outputLen {
      NoHeadJoin(sb, log, out, core.key);
      ApartWithoutHead(prf, log + out, k, core.key);
    } else {
      AllHeadJoin(sb, log, out, core.key);
      SharedWithHead(prf, log + out, k, core.key);
    }
  }

  /** Nothing of a key's own keystream is out or buffered while it is the key. */
  lemma NothingYet(sb: nat, log: seq<Sym>, core: State<Sym>)
    requires Inv(log, core, 0)
    ensures NoHead(sb, log, core.key) && NoHead(sb, core.buf, core.key)
  {
    hide Root, Epoch, NoDup, Line;
    forall e | e in log ensures e in log + core.buf {}
    forall e | e in core.buf ensures e in log + core.buf {}
  }

  // ----- over runs

  ghost predicate Tails(prf: Prf<Sym>, w: World<Sym>) {
    forall p <- w.procs | w.procs[p].Live? :: Tail(prf.stateBytes, w.procs[p].core.buf)
  }

  /** The event is a request that passes its checks and takes whole blocks from that key. */
  ghost predicate AsksBlocks(prf: Prf<Sym>, w: World<Sym>, e: Event, key: seq<Sym>)
    requires Fine(prf, w)
  {
    e.Ask? && e.p in w.procs && e.op.Bytes? &&
    var c := Check(prf, w.procs[e.p], e.p, Drawing(w, e.p, e.supply));
    c.outcome.Done? && c.session.core.key == key && TakesBlocks(prf.outputLen, |c.session.core.buf|, e.op.n)
  }

  ghost predicate BlocksTaken(prf: Prf<Sym>, w: World<Sym>, es: seq<Event>, key: seq<Sym>)
    requires Fine(prf, w)
    decreases |es|
  {
    es != [] && (AsksBlocks(prf, w, es[0], key) || BlocksTaken(prf, Happen(prf, w, es[0]), es[1..], key))
  }

  lemma ConstructTail(prf: Prf<Sym>, entropy: seq<Sym>)
    requires OverSymbols(prf) && |entropy| >= prf.stateBytes
    ensures Tail(prf.stateBytes, Construct(prf, entropy).buf)
  {
    hide StirAt, AddSeed, Tail;
    var key, rest := entropy[..prf.stateBytes], entropy[prf.stateBytes..];
    FirstStirTail(prf, if rest == [] then key else AddSeed(prf, key, rest).key);
  }

  lemma AddSeedTail(prf: Prf<Sym>, key: seq<Sym>, seed: seq<Sym>)
    requires OverSymbols(prf) && |key| == prf.stateBytes
    ensures Tail(prf.stateBytes, AddSeed(prf, key, seed).buf)
  {
    hide StirAt, SeedKey, Tail;
    FirstStirTail(prf, SeedKey(prf, key, seed));
  }

  lemma CheckTail(prf: Prf<Sym>, w: World<Sym>, p: int, supply: Supply)
    requires Fine(prf, w) && Tails(prf, w) && p in w.procs
    ensures var c := Check(prf, w.procs[p], p, Drawing(w, p, supply));
            c.outcome.Done? ==> Tail(prf.stateBytes, c.session.core.buf)
    ensures var r := FromDraw(prf, Drawing(w, p, supply));
            r.Fresh? ==> Tail(prf.stateBytes, r.core.buf)
  {
    hide Construct, Tail, OverSymbols;
    if supply.Supplies? && supply.n >= prf.stateBytes {
      ConstructTail(prf, EntropyBytes(p, w.draws, supply.n));
    }
  }

  /** What a request that passes its checks does to heads and tails. */
  lemma AskHeads(prf: Prf<Sym>, w: World<Sym>, p: int, op: Op, supply: Supply, key: seq<Sym>)
    requires Fine(prf, w) && Tails(prf, w) && p in w.procs && Supported(op) && Affordable(prf, w, Ask(p, op, supply))
    ensures var c := Check(prf, w.procs[p], p, Drawing(w, p, supply));
            c.outcome.Done? ==>
              var r := Perform(prf, c.session.core, op);
              && Tail(prf.stateBytes, r.state.buf)
              && (if AsksBlocks(prf, w, Ask(p, op, supply), key) then AllHead(prf.stateBytes, r.out, key)
                  else NoHead(prf.stateBytes, r.out, key))
  {
    hide Tail, NoHead, AllHead, OverSymbols, GetBytes, Tiny, Construct, Fits, Tails;
    var c := Check(prf, w.procs[p], p, Drawing(w, p, supply));
    CheckTail(prf, w, p, supply);
    if c.outcome.Done? {
      TailHasNoHead(prf.stateBytes, c.session.core.buf, key);
      match op {
        case Bytes(n) => BytesHeads(prf, c.session.core, n, key);
        case Int(k) => TinyHeads(prf, c.session.core, k, key);
      }
    }
  }

  lemma FeedTail(prf: Prf<Sym>, w: World<Sym>, p: int, seed: seq<byte>, supply: Supply)
    requires Fine(prf, w) && Tails(prf, w) && p in w.procs
    ensures var s := Seed(prf, w.procs[p], Literals(seed), Drawing(w, p, supply)).session;
            s.Live? ==> Tail(prf.stateBytes, s.core.buf)
  {
    hide AddSeed, Tail, OverSymbols;
    var s := w.procs[p];
    if s.Live? {
      AddSeedTail(prf, s.core.key,
                  if seed != [] then Literals(seed) else EntropyBytes(p, w.draws, SupplyLength(supply)));
    }
  }

  lemma HappenHeads(prf: Prf<Sym>, w: World<Sym>, e: Event, key: seq<Sym>)
    requires Fine(prf, w) && Tails(prf, w) && Affordable(prf, w, e)
    ensures var w', sb := Happen(prf, w, e), prf.stateBytes;
            && Tails(prf, w')
            && (AllHead(sb, w.bytes, key) || AsksBlocks(prf, w, e, key) ==> AllHead(sb, w'.bytes, key))
            && (NoHead(sb, w.bytes, key) && !AsksBlocks(prf, w, e, key) ==> NoHead(sb, w'.bytes, key))
  {
    hide Tail, NoHead, AllHead, OverSymbols, Perform, Construct, AddSeed, Fits;
    if e.p in w.procs {
      match e {
        case Start(p, supply) => CheckTail(prf, w, p, supply);
        case Split(_, _) =>
        case Exit(_) =>
        case Feed(p, seed, supply) => FeedTail(prf, w, p, seed, supply);
        case Ask(p, op, supply) =>
          if Supported(op) {
            AskHeads(prf, w, p, op, supply, key);
            var c := Check(prf, w.procs[p], p, Drawing(w, p, supply));
            var out := if c.outcome.Done? then Perform(prf, c.session.core, op).out else [];
            if AllHead(prf.stateBytes, w.bytes, key) || AsksBlocks(prf, w, e, key) {
              AllHeadJoin(prf.stateBytes, w.bytes, out, key);
            }
            if NoHead(prf.stateBytes, w.bytes, key) && !AsksBlocks(prf, w, e, key) {
              NoBytesNoHead(prf.stateBytes, key);
              NoHeadJoin(prf.stateBytes, w.bytes, out, key);
            }
          }
      }
    }
  }

  lemma NoBytesNoHead(sb: nat, key: seq<Sym>)
    ensures NoHead(sb, [], key)
  {
  }

  lemma {:induction false} RunHeads(prf: Prf<Sym>, w: World<Sym>, es: seq<Event>, key: seq<Sym>)
    requires Fine(prf, w) && Tails(prf, w) && AllAllowed(prf, w, es)
    ensures var w', taken := Run(prf, w, es), BlocksTaken(prf, w, es, key);
            && (AllHead(prf.stateBytes, w.bytes, key) || taken ==> AllHead(prf.stateBytes, w'.bytes, key))
            && (NoHead(prf.stateBytes, w.bytes, key) && !taken ==> NoHead(prf.stateBytes, w'.bytes, key))
    decreases |es|
  {
    hide Happen, NoHead, AllHead, Tails, AsksBlocks, OverSymbols;
    if es != [] {
      HappenHeads(prf, w, es[0], key);
      RunHeads(prf, Happen(prf, w, es[0]), es[1..], key);
    }
  }

  /** A key made from the head of the first block under `key`, by any process in any state, is apart from
      all bytes of a run if and only if no request of the run takes whole blocks from `key`. */
  lemma HeadKeyIsApartIff(prf: Prf<Sym>, boot: int, es: seq<Event>, k: seq<Sym>, key: seq<Sym>)
    requires OverSymbols(prf) && AllAllowed(prf, Boot(boot), es) && MadeFromHead(prf.stateBytes, k, key)
    ensures Avoids(Run(prf, Boot(boot), es).bytes, k) <==> !BlocksTaken(prf, Boot(boot), es, key)
  {
    hide MadeFromHead, NoHead, AllHead, BlocksTaken, Run, AllAllowed;
    RunHeads(prf, Boot(boot), es, key);
    NoBytesNoHead(prf.stateBytes, key);
    var bytes := Run(prf, Boot(boot), es).bytes;
    if BlocksTaken(prf, Boot(boot), es, key) {
      SharedWithHead(prf, bytes, k, key);
    } else {
      ApartWithoutHead(prf, bytes, k, key);
    }
  }

  // ----- every key of every process

  ghost predicate FirstMade(sb: nat, k: seq<Sym>) {
    HasParent(k) && MadeFromHead(sb, k, Parent(k))
  }

  /** Keys are either made from the head of a first block, or were had by a process that owned its state. */
  ghost predicate Kind(prf: Prf<Sym>, w: World<Sym>, k: seq<Sym>) {
    FirstMade(prf.stateBytes, k) || exists owner: int :: Guarded(prf, w, k, owner)
  }

  ghost predicate LineKinds(prf: Prf<Sym>, w: World<Sym>, key: seq<Sym>) {
    forall k <- Line(key) :: Kind(prf, w, k)
  }

  ghost predicate Kinds(prf: Prf<Sym>, w: World<Sym>) {
    forall p <- w.procs | w.procs[p].Live? :: LineKinds(prf, w, w.procs[p].core.key)
  }

  lemma OwnedKinds(prf: Prf<Sym>, w: World<Sym>, p: int)
    requires Isolated(prf, w) && Owns(w, p)
    ensures LineKinds(prf, w, w.procs[p].core.key)
  {
    hide Guarded, Isolated, Line;
    forall k | k in Line(w.procs[p].core.key) ensures Kind(prf, w, k) {
      OwnedIsGuarded(prf, w, p, k);
    }
  }

  lemma KindsStay(prf: Prf<Sym>, w: World<Sym>, e: Event, key: seq<Sym>)
    requires Isolated(prf, w) && Allowed(prf, w, e) && LineKinds(prf, w, key)
    ensures LineKinds(prf, Happen(prf, w, e), key)
  {
    hide Guarded, Line, Happen, FirstMade, Allowed, Inv, NoDup, Root, DrawnBy;
    forall k | k in Line(key) ensures Kind(prf, Happen(prf, w, e), k) {
      if !FirstMade(prf.stateBytes, k) {
        var owner: int :| Guarded(prf, w, k, owner);
        HappenGuards(prf, w, e, k, owner);
      }
    }
  }

  /** Add-seed adds keys made from heads of first blocks. */
  lemma {:induction false} SeedLine(prf: Prf<Sym>, key: seq<Sym>, seed: seq<Sym>)
    requires OverSymbols(prf) && |key| == prf.stateBytes
    ensures forall k <- Line(SeedKey(prf, key, seed)) :: k in Line(key) || FirstMade(prf.stateBytes, k)
    decreases |seed|
  {
    hide Line, MixKey, SeedKey, FirstMade;
    if seed == [] {
      NoSeed(prf, key);
    } else {
      var m := FirstChunk(prf.stateBytes, |seed|);
      var k := MixKey(prf, key, seed[..m]);
      assert seed == seed[..m] + seed[m..];
      SeedStep(prf, key, seed[..m], seed[m..]);
      MixedFromHead(prf, key, seed[..m]);
      NextInLine(prf.stateBytes, key, k);
      SeedLine(prf, k, seed[m..]);
    }
  }

  lemma NextInLine(sb: nat, key: seq<Sym>, k: seq<Sym>)
    requires MadeFromHead(sb, k, key) && HasParent(k) && Parent(k) == key
    ensures FirstMade(sb, k)
    ensures forall j <- Line(k) :: j in Line(key) || FirstMade(sb, j)
  {
    hide MadeFromHead;
    ChildKey(key, k);
  }

  lemma AddSeedLine(prf: Prf<Sym>, key: seq<Sym>, seed: seq<Sym>)
    requires OverSymbols(prf) && |key| == prf.stateBytes
    ensures forall k <- Line(AddSeed(prf, key, seed).key) :: k in Line(key) || FirstMade(prf.stateBytes, k)
  {
    hide Line, StirAt, SeedKey, FirstMade;
    var k := SeedKey(prf, key, seed);
    SeedLine(prf, key, seed);
    StirredFromHead(prf, k);
    NextInLine(prf.stateBytes, k, StirAt(prf, k, 0).key);
  }

  lemma FedKinds(prf: Prf<Sym>, w: World<Sym>, key: seq<Sym>, seed: seq<Sym>)
    requires OverSymbols(prf) && |key| == prf.stateBytes && LineKinds(prf, w, key)
    ensures LineKinds(prf, w, AddSeed(prf, key, seed).key)
  {
    hide Line, AddSeed, FirstMade, Guarded;
    AddSeedLine(prf, key, seed);
  }

  lemma FeedKinds(prf: Prf<Sym>, w: World<Sym>, p: int, seed: seq<byte>, supply: Supply)
    requires Isolated(prf, w) && p in w.procs && Kinds(prf, w)
    ensures var w' := Happen(prf, w, Feed(p, seed, supply));
            w'.procs[p].Live? ==> LineKinds(prf, w', w'.procs[p].core.key)
  {
    hide LineKinds, AddSeed, Guarded, Inv, NoDup, DrawnBy, Root;
    var s, w' := w.procs[p], Happen(prf, w, Feed(p, seed, supply));
    if s.Live? {
      KindsStay(prf, w, Feed(p, seed, supply), s.core.key);
      FedKinds(prf, w', s.core.key,
               if seed != [] then Literals(seed) else EntropyBytes(p, w.draws, SupplyLength(supply)));
    }
  }

  lemma HappenKinds(prf: Prf<Sym>, w: World<Sym>, e: Event)
    requires Isolated(prf, w) && Allowed(prf, w, e) && Kinds(prf, w)
    ensures Kinds(prf, Happen(prf, w, e))
  {
    hide LineKinds, Init, Rand, Seed, Inv, NoDup, DrawnBy, Root, Affordable;
    var w' := Happen(prf, w, e);
    HappenKeeps(prf, w, e);
    forall q | q in w'.procs && w'.procs[q].Live? ensures LineKinds(prf, w', w'.procs[q].core.key) {
      if q in w.procs && w'.procs[q] == w.procs[q] {
        KindsStay(prf, w, e, w.procs[q].core.key);
      } else if e.Split? {
        KindsStay(prf, w, e, w.procs[e.p].core.key);
      } else if e.Feed? {
        FeedKinds(prf, w, e.p, e.seed, e.supply);
      } else {
        SeededHere(prf, w, e);
        OwnedKinds(prf, w', q);
      }
    }
  }

  /** An initialization or a request that changes a state leaves it owned. */
  lemma SeededHere(prf: Prf<Sym>, w: World<Sym>, e: Event)
    requires Fine(prf, w) && e.p in w.procs && (e.Start? || e.Ask?)
    ensures var s := Happen(prf, w, e).procs[e.p];
            s.Live? ==> s.pid == e.p || s == w.procs[e.p]
  {
    hide Perform, Construct;
  }

  lemma {:induction false} RunKinds(prf: Prf<Sym>, w: World<Sym>, es: seq<Event>)
    requires Isolated(prf, w) && AllAllowed(prf, w, es) && Kinds(prf, w)
    ensures Kinds(prf, Run(prf, w, es))
    decreases |es|
  {
    hide Happen, Kinds, Allowed, Inv, NoDup, Root, DrawnBy;
    if es != [] {
      HappenKeeps(prf, w, es[0]);
      HappenKinds(prf, w, es[0]);
      RunKinds(prf, Happen(prf, w, es[0]), es[1..]);
    }
  }

  /** Every key that any process has at some point of a run, or that such a key was made from, in states
      of its own and in inherited ones, fed or not: it is apart from all bytes handed out in the run, before
      that point and after it, if and only if it was not made from the head of the first block under a key
      from which some request of the run takes whole blocks. */
  lemma KeyIsApartIff(prf: Prf<Sym>, boot: int, before: seq<Event>, after: seq<Event>, p: int, k: seq<Sym>)
    requires OverSymbols(prf) && AllAllowed(prf, Boot(boot), before + after)
    requires var w := Run(prf, Boot(boot), before);
             p in w.procs && w.procs[p].Live? && k in Line(w.procs[p].core.key)
    ensures Avoids(Run(prf, Boot(boot), before + after).bytes, k) <==>
              !(FirstMade(prf.stateBytes, k) && BlocksTaken(prf, Boot(boot), before + after, Parent(k)))
  {
    hide Guarded, BlocksTaken, Line, Run, AllAllowed, MadeFromHead;
    var w := Run(prf, Boot(boot), before);
    RunInTwo(prf, Boot(boot), before, after);
    if FirstMade(prf.stateBytes, k) {
      HeadKeyIsApartIff(prf, boot, before + after, k, Parent(k));
    } else {
      RunKeeps(prf, Boot(boot), before);
      RunKinds(prf, Boot(boot), before);
      var owner: int :| Guarded(prf, w, k, owner);
      RunGuards(prf, w, after, k, owner);
      GuardedAvoids(prf, Run(prf, w, after), k, owner);
    }
  }

  lemma GuardedAvoids(prf: Prf<Sym>, w: World<Sym>, k: seq<Sym>, owner: int)
    requires Guarded(prf, w, k, owner)
    ensures Avoids(w.bytes, k)
  {
  }
}
