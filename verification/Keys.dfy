/** Keys over time.  Fork.dfy speaks of the keys that processes have at the end of a run; here every
    key that a process has had while it owned its state, even one dropped by a later initialization,
    stays apart from all bytes handed out before and after.  Heads.dfy says of all other keys exactly
    when they do. */
module Keys {
  import opened Prf
  import opened Machine
  import opened Arithmetic
  import opened Session
  import opened Provenance
  import opened Fork

  // ----- the line of keys only grows

  ghost predicate Grows(key: seq<Sym>, key': seq<Sym>) {
    forall k <- Line(key) :: k in Line(key')
  }

  lemma GrowsOn(k1: seq<Sym>, k2: seq<Sym>, k3: seq<Sym>)
    requires Grows(k1, k2) && Grows(k2, k3)
    ensures Grows(k1, k3)
  {
  }

  lemma ChildGrows(key: seq<Sym>, key': seq<Sym>)
    requires HasParent(key') && key'[|key'| - 1].key == key
    ensures Grows(key, key')
  {
    ChildKey(key, key');
  }

  lemma StirGrows(prf: Prf<Sym>, key: seq<Sym>, c: nat)
    requires OverSymbols(prf) && |key| == prf.stateBytes
    ensures Grows(key, StirAt(prf, key, c).key)
  {
    assert prf.Block(key, c) == SymBlock(prf.outputLen, key, c % COUNTER_SPAN);
    var key' := StirAt(prf, key, c).key;
    assert key'[|key'| - 1] == KeystreamByte(key, (c % COUNTER_SPAN) * prf.outputLen + (prf.stateBytes - 1));
    ChildGrows(key, key');
  }

  lemma MixGrows(prf: Prf<Sym>, key: seq<Sym>, chunk: seq<Sym>)
    requires OverSymbols(prf) && |key| == prf.stateBytes && |chunk| <= prf.stateBytes / 2
    ensures Grows(key, MixKey(prf, key, chunk))
  {
    MadeHere(prf, key);
    ChildGrows(key, MixKey(prf, key, chunk));
  }

  lemma {:induction false} SeedGrows(prf: Prf<Sym>, key: seq<Sym>, seed: seq<Sym>)
    requires OverSymbols(prf) && |key| == prf.stateBytes
    ensures Grows(key, SeedKey(prf, key, seed))
    decreases |seed|
  {
    hide Line, MixKey;
    if seed != [] {
      var m := FirstChunk(prf.stateBytes, |seed|);
      var k := MixKey(prf, key, seed[..m]);
      assert seed == seed[..m] + seed[m..];
      SeedStep(prf, key, seed[..m], seed[m..]);
      MixGrows(prf, key, seed[..m]);
      SeedGrows(prf, k, seed[m..]);
      GrowsOn(key, k, SeedKey(prf, k, seed[m..]));
    }
  }

  lemma AddSeedGrows(prf: Prf<Sym>, key: seq<Sym>, seed: seq<Sym>)
    requires OverSymbols(prf) && |key| == prf.stateBytes
    ensures Grows(key, AddSeed(prf, key, seed).key)
  {
    hide Line, StirAt;
    var k := SeedKey(prf, key, seed);
    SeedGrows(prf, key, seed);
    StirGrows(prf, k, 0);
    GrowsOn(key, k, StirAt(prf, k, 0).key);
  }

  lemma FromBufGrows(prf: Prf<Sym>, s: State<Sym>, n: nat)
    requires OverSymbols(prf) && Quiet(prf, s) && n < |s.buf| + prf.outputLen - prf.stateBytes
    ensures Grows(s.key, FromBuf(prf, s, n).state.key)
  {
    StirGrows(prf, s.key, 0);
  }

  lemma GetBytesGrows(prf: Prf<Sym>, s: State<Sym>, n: nat)
    requires OverSymbols(prf) && Quiet(prf, s)
    ensures Grows(s.key, GetBytes(prf, s, n).state.key)
  {
    hide Line, StirAt, FromBuf, GetBytes, Grows, Raw;
    if n < |s.buf| + prf.outputLen - prf.stateBytes - 1 {
      SmallRequest(prf, s, n);
      FromBufGrows(prf, s, n);
    } else {
      var q, rest := Arithmetic.Split(n - |s.buf|, prf.outputLen);
      LargeRequest(prf, s, n, q, rest);
      var u := StirAt(prf, s.key, q);
      StirGrows(prf, s.key, q);
      FromBufGrows(prf, u, rest);
      GrowsOn(s.key, u.key, FromBuf(prf, u, rest).state.key);
    }
  }

  lemma PerformGrows(prf: Prf<Sym>, s: State<Sym>, op: Op)
    requires OverSymbols(prf) && Quiet(prf, s) && Supported(op)
    ensures Grows(s.key, Perform(prf, s, op).state.key)
  {
    match op {
      case Bytes(n) => GetBytesGrows(prf, s, n);
      case Int(k) => StirGrows(prf, s.key, 0);
    }
  }

  /** All keys of a line go back to the same entropy. */
  lemma {:induction false} LineHasRoot(key: seq<Sym>, k: seq<Sym>)
    requires k in Line(key)
    ensures Root(k) == Root(key)
    decreases key
  {
    if k != key {
      LineHasRoot(key[|key| - 1].key, k);
    }
  }

  // ----- a key stays apart from what is handed out

  /** No byte handed out is in the key before mixing, and none will be: the key was made from blocks under
      its own root, which `owner` drew; and if `owner` still has a key of that root, it was made from
      this one. */
  ghost predicate Guarded(prf: Prf<Sym>, w: World<Sym>, k: seq<Sym>, owner: int) {
    && Avoids(w.bytes, k)
    && OwnBlocks(k)
    && DrawnBy(Root(k), owner, w.draws, prf.stateBytes)
    && (Owns(w, owner) && Root(w.procs[owner].core.key) == Root(k) ==> k in Line(w.procs[owner].core.key))
  }

  ghost predicate OwnBlocks(k: seq<Sym>) {
    forall i | 0 <= i < |k| && Source(k[i]).Out? :: Root(Source(k[i]).key) == Root(k)
  }

  lemma OwnedIsGuarded(prf: Prf<Sym>, w: World<Sym>, p: int, k: seq<Sym>)
    requires Isolated(prf, w) && Owns(w, p) && k in Line(w.procs[p].core.key)
    ensures Guarded(prf, w, k, p)
  {
    hide Line, Root, OverSymbols, NoDup;
    var core := w.procs[p].core;
    LineHasRoot(core.key, k);
    assert Inv(w.bytes, core, 0) && Avoids(w.bytes + core.buf, k);
    forall i, e | 0 <= i < |k| && e in w.bytes ensures Source(k[i]) != e {
      assert e in w.bytes + core.buf;
    }
  }

  /** Bytes under another root are not in the key. */
  lemma OtherRoots(k: seq<Sym>, out: seq<Sym>)
    requires OwnBlocks(k) && forall e <- out :: e.Out? && Root(e.key) != Root(k)
    ensures Avoids(out, k)
  {
  }

  lemma AvoidsMore(a: seq<Sym>, b: seq<Sym>, k: seq<Sym>)
    requires Avoids(a, k) && Avoids(b, k)
    ensures Avoids(a + b, k)
  {
  }

  lemma AvoidsLess(a: seq<Sym>, b: seq<Sym>, k: seq<Sym>)
    requires Avoids(a + b, k)
    ensures Avoids(a, k)
  {
    forall i, e | 0 <= i < |k| && e in a ensures Source(k[i]) != e {
      assert e in a + b;
    }
  }

  lemma StartGuards(prf: Prf<Sym>, w: World<Sym>, p: int, supply: Supply, k: seq<Sym>, owner: int)
    requires Isolated(prf, w) && p in w.procs && Guarded(prf, w, k, owner)
    ensures Guarded(prf, Happen(prf, w, Start(p, supply)), k, owner)
  {
    hide Line, Root, Avoids, OwnBlocks, EntropyBytes, Construct, Inv, OverSymbols, NoDup;
    DrawnEarlier(Root(k), owner, w.draws, w.draws + 1, prf.stateBytes);
    FreshStart(prf, w, p, supply);
    NewDrawDiffers(Root(k), owner, p, w.draws, prf.stateBytes);
    if p != owner { assert Owns(Happen(prf, w, Start(p, supply)), owner) ==> Owns(w, owner); }
  }

  lemma FeedGuards(prf: Prf<Sym>, w: World<Sym>, p: int, seed: seq<byte>, supply: Supply, k: seq<Sym>, owner: int)
    requires Isolated(prf, w) && p in w.procs && Guarded(prf, w, k, owner)
    ensures Guarded(prf, Happen(prf, w, Feed(p, seed, supply)), k, owner)
  {
    hide Line, Root, Avoids, OwnBlocks, EntropyBytes, AddSeed, Inv, NoDup, DrawnBy;
    DrawnEarlier(Root(k), owner, w.draws, w.draws + 1, prf.stateBytes);
    var s := w.procs[p];
    var material := if seed != [] then Literals(seed) else EntropyBytes(p, w.draws, SupplyLength(supply));
    if s.Live? {
      AddSeedGrows(prf, s.core.key, material);
      SeedKeepsRoot(prf, s.core.key, material);
    }
    if p != owner { assert Owns(Happen(prf, w, Feed(p, seed, supply)), owner) ==> Owns(w, owner); }
  }

  function SupplyLength(supply: Supply): (n: nat) { if supply.Supplies? then supply.n else 0 }

  /** A request: the state it leaves still descends from the key, or goes back to a new draw. */
  lemma AskLine(prf: Prf<Sym>, w: World<Sym>, op: Op, supply: Supply, k: seq<Sym>, owner: int)
    requires Isolated(prf, w) && owner in w.procs && Guarded(prf, w, k, owner) && Supported(op)
    requires Affordable(prf, w, Ask(owner, op, supply))
    ensures var c := Check(prf, w.procs[owner], owner, Drawing(w, owner, supply));
            c.outcome.Done? ==>
              var key := Perform(prf, c.session.core, op).state.key;
              Root(key) == Root(k) ==> k in Line(key)
  {
    hide Line, Root, Avoids, OwnBlocks, EntropyBytes, Construct, Perform, Inv, NoDup, DrawnBy, RootedIn;
    var s := w.procs[owner];
    var c := Check(prf, s, owner, Drawing(w, owner, supply));
    if c.outcome.Done? {
      AskAnswers(prf, w, owner, op, supply);
      PerformGrows(prf, c.session.core, op);
      if s.pid == owner {
        assert Owns(w, owner);
      } else {
        FreshStart(prf, w, owner, supply);
        NewDrawDiffers(Root(k), owner, owner, w.draws, prf.stateBytes);
      }
    }
  }

  lemma AskGuards(prf: Prf<Sym>, w: World<Sym>, p: int, op: Op, supply: Supply, k: seq<Sym>, owner: int)
    requires Isolated(prf, w) && p in w.procs && Guarded(prf, w, k, owner) && Affordable(prf, w, Ask(p, op, supply))
    ensures Guarded(prf, Happen(prf, w, Ask(p, op, supply)), k, owner)
  {
    hide Line, Root, Avoids, OwnBlocks, EntropyBytes, Construct, Perform, Inv, NoDup, DrawnBy;
    var w' := Happen(prf, w, Ask(p, op, supply));
    var c := Check(prf, w.procs[p], p, Drawing(w, p, supply));
    DrawnEarlier(Root(k), owner, w.draws, w.draws + 1, prf.stateBytes);
    if p != owner { assert Owns(w', owner) ==> Owns(w, owner); }
    if Supported(op) && c.outcome.Done? {
      AskAnswers(prf, w, p, op, supply);
      var r := Perform(prf, c.session.core, op);
      if p == owner { AskLine(prf, w, op, supply, k, owner); }
      AnswerAvoids(prf, w, p, r, k, owner);
    } else {
      assert w.bytes + [] == w.bytes;
    }
  }

  lemma AnswerAvoids(prf: Prf<Sym>, w: World<Sym>, p: int, r: Reply<Sym>, k: seq<Sym>, owner: int)
    requires prf.stateBytes > 0 && Guarded(prf, w, k, owner) && Inv(w.bytes + r.out, r.state, 0)
    requires RootedIn(r.out, Root(r.state.key)) && DrawnBy(Root(r.state.key), p, w.draws + 1, prf.stateBytes)
    requires p == owner && Root(r.state.key) == Root(k) ==> k in Line(r.state.key)
    ensures Avoids(w.bytes + r.out, k)
  {
    hide Line, Root, Avoids, DrawnBy, NoDup, OwnBlocks;
    DrawnEarlier(Root(k), owner, w.draws, w.draws + 1, prf.stateBytes);
    if p == owner && Root(r.state.key) == Root(k) {
      AvoidsLess(w.bytes + r.out, r.state.buf, k);
    } else {
      if p != owner { OwnersDiffer(Root(r.state.key), p, Root(k), owner, w.draws + 1, prf.stateBytes); }
      OtherRoots(k, r.out);
      AvoidsMore(w.bytes, r.out, k);
    }
  }

  lemma HappenGuards(prf: Prf<Sym>, w: World<Sym>, e: Event, k: seq<Sym>, owner: int)
    requires Isolated(prf, w) && Allowed(prf, w, e) && Guarded(prf, w, k, owner)
    ensures Guarded(prf, Happen(prf, w, e), k, owner)
  {
    hide Line, Root, Avoids, OwnBlocks, Inv, NoDup, DrawnBy, OverSymbols, EntropyBytes;
    if e.p in w.procs {
      match e {
        case Start(p, supply) => StartGuards(prf, w, p, supply, k, owner);
        case Split(p, child) => SplitGuards(prf, w, p, child, k, owner);
        case Exit(p) => ExitGuards(prf, w, p, k, owner);
        case Feed(p, seed, supply) => FeedGuards(prf, w, p, seed, supply, k, owner);
        case Ask(p, op, supply) => AskGuards(prf, w, p, op, supply, k, owner);
      }
    }
  }

  lemma SplitGuards(prf: Prf<Sym>, w: World<Sym>, p: int, child: int, k: seq<Sym>, owner: int)
    requires Isolated(prf, w) && Guarded(prf, w, k, owner) && Foreign(w, Split(p, child))
    ensures Guarded(prf, Happen(prf, w, Split(p, child)), k, owner)
  {
    hide Line, Root, Avoids, OwnBlocks, Inv, NoDup, DrawnBy, EntropyBytes;
    var w' := Happen(prf, w, Split(p, child));
    assert Owns(w', owner) ==> Owns(w, owner) && w'.procs[owner] == w.procs[owner];
  }

  lemma ExitGuards(prf: Prf<Sym>, w: World<Sym>, p: int, k: seq<Sym>, owner: int)
    requires Isolated(prf, w) && Guarded(prf, w, k, owner)
    ensures Guarded(prf, Happen(prf, w, Exit(p)), k, owner)
  {
    hide Line, Root, Avoids, OwnBlocks, Inv, NoDup, DrawnBy, EntropyBytes;
    var w' := Happen(prf, w, Exit(p));
    assert Owns(w', owner) ==> Owns(w, owner) && w'.procs[owner] == w.procs[owner];
  }

  lemma {:induction false} RunGuards(prf: Prf<Sym>, w: World<Sym>, es: seq<Event>, k: seq<Sym>, owner: int)
    requires Isolated(prf, w) && AllAllowed(prf, w, es) && Guarded(prf, w, k, owner)
    ensures Guarded(prf, Run(prf, w, es), k, owner)
    decreases |es|
  {
    hide Guarded, Happen;
    if es != [] {
      HappenKeeps(prf, w, es[0]);
      HappenGuards(prf, w, es[0], k, owner);
      RunGuards(prf, Happen(prf, w, es[0]), es[1..], k, owner);
    }
  }

  lemma {:induction false} RunInTwo(prf: Prf<Sym>, w: World<Sym>, before: seq<Event>, after: seq<Event>)
    requires Fine(prf, w)
    ensures Run(prf, w, before + after) == Run(prf, Run(prf, w, before), after)
    ensures AllAllowed(prf, w, before + after) ==>
              AllAllowed(prf, w, before) && AllAllowed(prf, Run(prf, w, before), after)
    decreases |before|
  {
    hide Happen;
    var es := before + after;
    if before == [] {
      assert es == after;
    } else {
      assert es[0] == before[0] && es[1..] == before[1..] + after;
      RunInTwo(prf, Happen(prf, w, before[0]), before[1..], after);
    }
  }

  /** Every key that a process has at some point of a run, while it owns its state, and every key that
      one was made from, is made without any byte handed out by any process in the whole run, before
      that point or after it. */
  lemma KeysStayApart(prf: Prf<Sym>, boot: int, before: seq<Event>, after: seq<Event>, p: int, k: seq<Sym>)
    requires OverSymbols(prf) && AllAllowed(prf, Boot(boot), before + after)
    requires var w := Run(prf, Boot(boot), before); Owns(w, p) && k in Line(w.procs[p].core.key)
    ensures Avoids(Run(prf, Boot(boot), before + after).bytes, k)
  {
    var w := Run(prf, Boot(boot), before);
    RunInTwo(prf, Boot(boot), before, after);
    RunKeeps(prf, Boot(boot), before);
    OwnedIsGuarded(prf, w, p, k);
    RunGuards(prf, w, after, k, p);
  }

  // ----- why the process has to own its state

  function InheritingRun(prf: Prf<Sym>, x: byte): (es: seq<Event>)
    requires prf.WellFormed()
  {
    [Start(1, Supplies(prf.stateBytes)), Split(1, 2), Feed(2, [x], Fails(3)),
     Ask(1, Bytes(2 * prf.outputLen - prf.stateBytes), Fails(3))]
  }

  /** A child that adds seed before it asks for anything works on its parent's key: the parent goes on
      to hand out the block byte that was mixed into the child's key. */
  lemma InheritedKeysAreShared(prf: Prf<Sym>, x: byte)
    requires OverSymbols(prf)
    ensures AllAllowed(prf, Boot(1), InheritingRun(prf, x))
    ensures var w := Run(prf, Boot(1), InheritingRun(prf, x));
            && 2 in w.procs && w.procs[2].Live? && !Owns(w, 2)
            && exists k <- Line(w.procs[2].core.key) :: !Avoids(w.bytes, k)
  {
    hide FirstCore, GetBytes, Happen, Run, Line, Avoids, MixKey, AddSeed, Fits;
    var es, w0, core := InheritingRun(prf, x), Boot<Sym>(1), FirstCore(prf, 1);
    var n := 2 * prf.outputLen - prf.stateBytes;
    FirstStart(prf, 1);
    RunStep(prf, w0, es);
    var w1 := Happen(prf, w0, es[0]);
    SplitOrExit(prf, w1, es[1]);
    RunStep(prf, w1, es[1..]);
    var w2 := Happen(prf, w1, es[1]);
    FeedChild(prf, w2, core, x);
    RunStep(prf, w2, es[2..]);
    var w3 := Happen(prf, w2, es[2]);
    AskOwner(prf, w3, 1, core, n);
    RunStep(prf, w3, es[3..]);
    OneBlockFits(prf.outputLen, |core.buf|);
    assert AllAllowed(prf, w3, es[3..]);
    assert AllAllowed(prf, w2, es[2..]);
    assert AllAllowed(prf, w1, es[1..]);
    FedKeyIsHandedOut(prf, core, x);
    var w4 := Happen(prf, w3, es[3]);
    assert n == |core.buf| + prf.outputLen;
    assert w4.bytes == GetBytes(prf, core, n).out;
    assert w4.procs[2] == Live(1, AddSeed(prf, core.key, Literals([x])));
    assert !Owns(w4, 2);
  }

  lemma FeedChild(prf: Prf<Sym>, w: World<Sym>, core: State<Sym>, x: byte)
    requires Fine(prf, w) && 2 in w.procs && w.procs[2] == Live(1, core)
    ensures var w' := Happen(prf, w, Feed(2, [x], Fails(3)));
            w'.procs == w.procs[2 := Live(1, AddSeed(prf, core.key, Literals([x])))] && w'.bytes == w.bytes
  {
    hide AddSeed;
  }

  lemma OneBlockFits(ol: nat, buffered: nat)
    requires 0 < ol <= MAX_OUTPUT_LEN
    ensures Fits(ol, buffered, buffered + ol)
  {
    DivUnique(1, ol, 0);
  }

  /** The key between the mixing and the Stir of an add-seed, and a request of the parent. */
  lemma FedKeyIsHandedOut(prf: Prf<Sym>, core: State<Sym>, x: byte)
    requires OverSymbols(prf) && Quiet(prf, core)
    ensures var k := MixKey(prf, core.key, Literals([x]));
            && k in Line(AddSeed(prf, core.key, Literals([x])).key)
            && !Avoids(GetBytes(prf, core, |core.buf| + prf.outputLen).out, k)
  {
    hide StirAt, GetBytes, Line, Raw, FromBuf;
    var seed := Literals([x]);
    var k, n := MixKey(prf, core.key, seed), |core.buf| + prf.outputLen;
    assert seed + [] == seed;
    SeedStep(prf, core.key, seed, []);
    NoSeed(prf, k);
    StirGrows(prf, k, 0);
    FirstInLine(k);
    LargeRequest(prf, core, n, 1, 0);
    RawStarts(prf, core.key, 1);
    var out := GetBytes(prf, core, n).out;
    MadeHere(prf, core.key);
    assert out[|core.buf|] == Raw(prf, core.key, 1)[0] == prf.Block(core.key, 0)[0];
    var e := out[|core.buf|];
    assert e in out && Source(k[0]) == prf.Block(core.key, 0)[0] == e;
  }
}
