/** Many processes: initialization, fork, exit, add-seed and requests in any order.

    Every process has its own copy of the state; a fork copies it.  An identifier can be used again
    after an exit, but a process must not get the one stored in the state it inherits.  Over any run,
    bytes handed out by a process go back to entropy drawn under its identifier, and no byte is
    handed out twice, by whatever processes. */
module Fork {
  import opened Prf
  import opened Machine
  import E = Entropy
  import opened Session
  import opened Provenance

  /** What the entropy sources do if asked during an event. */
  datatype Supply = Fails(err: int) | Supplies(n: nat)

  datatype Event =
    | Start(p: int, supply: Supply)
    | Split(p: int, child: int)
    | Exit(p: int)
    | Feed(p: int, seed: seq<byte>, supply: Supply)
    | Ask(p: int, op: Op, supply: Supply)

  /** `givers[i]` is the process that handed out `bytes[i]`. */
  datatype World<T> = World(procs: map<int, Session<T>>, draws: nat, bytes: seq<T>, givers: seq<int>)

  function Boot<T>(p: int): (w: World<T>) { World(map[p := Dead], 0, [], []) }

  ghost predicate Tidy<T(!new)>(prf: Prf<T>, w: World<T>) {
    && prf.WellFormed() && |w.givers| == |w.bytes|
    && forall p <- w.procs :: Sound(prf, w.procs[p])
  }

  /** What an event does, given the outcome of an entropy draw and the bytes of a seed.  An event by a
      process that does not exist, or a fork onto one that does, changes nothing. */
  function Effect<T(!new)>(prf: Prf<T>, w: World<T>, e: Event, draw: E.Draw<T>, material: seq<T>): (w': World<T>)
    requires Tidy(prf, w)
    ensures Tidy(prf, w')
  {
    if e.p !in w.procs then w
    else
      var s := w.procs[e.p];
      match e
      case Start(p, _) =>
        w.(procs := w.procs[p := Init(prf, draw, p).session], draws := w.draws + 1)
      case Split(p, child) =>
        if child in w.procs then w else w.(procs := w.procs[child := s])
      case Exit(p) => w.(procs := w.procs - {p})
      case Feed(p, _, _) =>
        w.(procs := w.procs[p := Seed(prf, s, material, draw).session], draws := w.draws + 1)
      case Ask(p, op, _) =>
        if !Supported(op) then w
        else
          var r := Rand(prf, s, op, p, draw);
          var out := if r.outcome.Done? then r.outcome.out else [];
          World(w.procs[p := r.session], w.draws + 1, w.bytes + out, w.givers + seq(|out|, _ => p))
  }

  // ----- over symbolic bytes

  function Drawing(w: World<Sym>, p: int, supply: Supply): (d: E.Draw<Sym>) {
    match supply
    case Fails(err) => E.NoDraw(err)
    case Supplies(n) => E.Got(EntropyBytes(p, w.draws, n), {})
  }

  function DrawFor(w: World<Sym>, e: Event): (d: E.Draw<Sym>) {
    if e.Split? || e.Exit? then E.NoDraw(0) else Drawing(w, e.p, e.supply)
  }

  function Literals(seed: seq<byte>): (r: seq<Sym>)
    ensures |r| == |seed|
  {
    seq(|seed|, i requires 0 <= i < |seed| => Literal(seed[i]))
  }

  function Material(e: Event): (r: seq<Sym>) { if e.Feed? then Literals(e.seed) else [] }

  ghost predicate Fine(prf: Prf<Sym>, w: World<Sym>) {
    OverSymbols(prf) && Tidy(prf, w)
  }

  function Happen(prf: Prf<Sym>, w: World<Sym>, e: Event): (w': World<Sym>)
    requires Fine(prf, w)
    ensures Fine(prf, w')
  {
    Effect(prf, w, e, DrawFor(w, e), Material(e))
  }

  /** The request does not use up the keystream of one key. */
  ghost predicate Affordable(prf: Prf<Sym>, w: World<Sym>, e: Event)
    requires Fine(prf, w)
  {
    e.Ask? && e.p in w.procs && e.op.Bytes? ==>
      var c := Check(prf, w.procs[e.p], e.p, Drawing(w, e.p, e.supply));
      c.outcome.Done? ==> Fits(prf.outputLen, |c.session.core.buf|, e.op.n)
  }

  /** The state was seeded by another process than the child, as far as their identifiers tell. */
  predicate Foreign(w: World<Sym>, e: Event) {
    e.Split? && e.p in w.procs && w.procs[e.p].Live? ==> e.child != w.procs[e.p].pid
  }

  ghost predicate Allowed(prf: Prf<Sym>, w: World<Sym>, e: Event)
    requires Fine(prf, w)
  {
    Affordable(prf, w, e) && Foreign(w, e)
  }

  // ----- the invariant

  /** `root` is a draw that `owner` has made. */
  ghost predicate DrawnBy(root: seq<Sym>, owner: int, draws: nat, sb: nat) {
    exists d: nat | d < draws :: root == EntropyBytes(owner, d, sb)
  }

  /** A process that was seeded itself since it was forked. */
  predicate Owns(w: World<Sym>, p: int) {
    p in w.procs && w.procs[p].Live? && w.procs[p].pid == p
  }

  ghost predicate Isolated(prf: Prf<Sym>, w: World<Sym>) {
    && Fine(prf, w)
    && NoDup(w.bytes)
    && (forall i | 0 <= i < |w.bytes| ::
          w.bytes[i].Out? && DrawnBy(Root(w.bytes[i].key), w.givers[i], w.draws, prf.stateBytes))
    && (forall p <- w.procs | w.procs[p].Live? ::
          DrawnBy(Root(w.procs[p].core.key), w.procs[p].pid, w.draws, prf.stateBytes))
    && (forall p | Owns(w, p) :: Inv(w.bytes, w.procs[p].core, 0))
  }

  lemma OwnersDiffer(r1: seq<Sym>, p1: int, r2: seq<Sym>, p2: int, draws: nat, sb: nat)
    requires DrawnBy(r1, p1, draws, sb) && DrawnBy(r2, p2, draws, sb) && sb > 0 && p1 != p2
    ensures r1 != r2
  {
    var d1: nat :| d1 < draws && r1 == EntropyBytes(p1, d1, sb);
    var d2: nat :| d2 < draws && r2 == EntropyBytes(p2, d2, sb);
    assert r1[0] == Entropy(p1, d1, 0) && r2[0] == Entropy(p2, d2, 0);
  }

  lemma NewDrawDiffers(r: seq<Sym>, p: int, q: int, draws: nat, sb: nat)
    requires DrawnBy(r, p, draws, sb) && sb > 0
    ensures r != EntropyBytes(q, draws, sb)
  {
    var d: nat :| d < draws && r == EntropyBytes(p, d, sb);
    assert r[0] == Entropy(p, d, 0) && EntropyBytes(q, draws, sb)[0] == Entropy(q, draws, 0);
  }

  lemma DrawnEarlier(r: seq<Sym>, p: int, draws: nat, more: nat, sb: nat)
    requires DrawnBy(r, p, draws, sb) && draws <= more
    ensures DrawnBy(r, p, more, sb)
  {
    var d: nat :| d < draws && r == EntropyBytes(p, d, sb);
    assert d < more;
  }

  // ----- every event keeps it

  /** One process changes its state to s' and hands out `out`. */
  lemma Update(prf: Prf<Sym>, w: World<Sym>, p: int, s': Session<Sym>, out: seq<Sym>)
    requires Isolated(prf, w) && p in w.procs && Sound(prf, s')
    requires s'.Live? ==> DrawnBy(Root(s'.core.key), s'.pid, w.draws + 1, prf.stateBytes)
    requires s'.Live? && s'.pid == p ==> Inv(w.bytes + out, s'.core, 0)
    requires out != [] ==> s'.Live? && s'.pid == p && RootedIn(out, Root(s'.core.key))
    requires NoDup(w.bytes + out)
    ensures Isolated(prf, World(w.procs[p := s'], w.draws + 1, w.bytes + out, w.givers + seq(|out|, _ => p)))
  {
    var w' := World(w.procs[p := s'], w.draws + 1, w.bytes + out, w.givers + seq(|out|, _ => p));
    forall i | 0 <= i < |w'.bytes|
      ensures w'.bytes[i].Out? && DrawnBy(Root(w'.bytes[i].key), w'.givers[i], w'.draws, prf.stateBytes)
    {
      if i < |w.bytes| {
        DrawnEarlier(Root(w.bytes[i].key), w.givers[i], w.draws, w'.draws, prf.stateBytes);
      } else {
        assert w'.bytes[i] in out;
      }
    }
    forall q | q in w'.procs && w'.procs[q].Live?
      ensures DrawnBy(Root(w'.procs[q].core.key), w'.procs[q].pid, w'.draws, prf.stateBytes)
    {
      if q != p { DrawnEarlier(Root(w.procs[q].core.key), w.procs[q].pid, w.draws, w'.draws, prf.stateBytes); }
    }
    forall q | Owns(w', q) ensures Inv(w'.bytes, w'.procs[q].core, 0) {
      if q != p {
        assert Owns(w, q);
        UpdateOther(prf, w, p, s', out, q);
      }
    }
  }

  lemma UpdateOther(prf: Prf<Sym>, w: World<Sym>, p: int, s': Session<Sym>, out: seq<Sym>, q: int)
    requires Isolated(prf, w) && Owns(w, q) && q != p
    requires s'.Live? ==> DrawnBy(Root(s'.core.key), s'.pid, w.draws + 1, prf.stateBytes)
    requires out != [] ==> s'.Live? && s'.pid == p && RootedIn(out, Root(s'.core.key))
    requires NoDup(w.bytes + out)
    ensures Inv(w.bytes + out, w.procs[q].core, 0)
  {
    if out == [] {
      assert w.bytes + out == w.bytes;
    } else {
      var mine, theirs := Root(s'.core.key), Root(w.procs[q].core.key);
      DrawnEarlier(theirs, q, w.draws, w.draws + 1, prf.stateBytes);
      OwnersDiffer(mine, p, theirs, q, w.draws + 1, prf.stateBytes);
      OthersKeep(w.bytes, out, w.procs[q].core, mine);
    }
  }

  /** A state seeded from a new draw. */
  lemma FreshStart(prf: Prf<Sym>, w: World<Sym>, p: int, supply: Supply)
    requires Isolated(prf, w)
    ensures var r := FromDraw(prf, Drawing(w, p, supply));
            r.Fresh? ==> && Inv(w.bytes, r.core, 0)
                         && Root(r.core.key) == EntropyBytes(p, w.draws, prf.stateBytes)
                         && DrawnBy(Root(r.core.key), p, w.draws + 1, prf.stateBytes)
  {
    if supply.Supplies? && supply.n >= prf.stateBytes {
      var entropy := EntropyBytes(p, w.draws, supply.n);
      var root := EntropyBytes(p, w.draws, prf.stateBytes);
      assert entropy[..prf.stateBytes] == root;
      forall e | e in w.bytes ensures e.Out? && Root(e.key) != root {
        var i :| 0 <= i < |w.bytes| && w.bytes[i] == e;
        NewDrawDiffers(Root(e.key), w.givers[i], p, w.draws, prf.stateBytes);
      }
      ConstructStarts(prf, w.bytes, entropy);
    }
  }

  lemma StartKeeps(prf: Prf<Sym>, w: World<Sym>, p: int, supply: Supply)
    requires Isolated(prf, w) && p in w.procs
    ensures Isolated(prf, Happen(prf, w, Start(p, supply)))
  {
    hide Inv, Root, EntropyBytes;
    FreshStart(prf, w, p, supply);
    assert w.bytes + [] == w.bytes && w.givers + seq(0, _ => p) == w.givers;
    Update(prf, w, p, Init(prf, Drawing(w, p, supply), p).session, []);
  }

  lemma ExitKeeps(prf: Prf<Sym>, w: World<Sym>, p: int)
    requires Isolated(prf, w)
    ensures Isolated(prf, Happen(prf, w, Exit(p)))
  {
    var w' := Happen(prf, w, Exit(p));
    forall q | Owns(w', q) ensures Owns(w, q) && w'.procs[q] == w.procs[q] {}
  }

  lemma SplitKeeps(prf: Prf<Sym>, w: World<Sym>, p: int, child: int)
    requires Isolated(prf, w) && Foreign(w, Split(p, child))
    ensures Isolated(prf, Happen(prf, w, Split(p, child)))
  {
    var w' := Happen(prf, w, Split(p, child));
    forall q | Owns(w', q) ensures Owns(w, q) && w'.procs[q] == w.procs[q] {}
  }

  lemma FeedLive(prf: Prf<Sym>, w: World<Sym>, p: int, material: seq<Sym>)
    requires Isolated(prf, w) && p in w.procs && w.procs[p].Live?
    ensures var s := w.procs[p];
            Isolated(prf, World(w.procs[p := Live(s.pid, AddSeed(prf, s.core.key, material))],
                                w.draws + 1, w.bytes, w.givers))
  {
    var s := w.procs[p];
    var s' := Live(s.pid, AddSeed(prf, s.core.key, material));
    DrawnEarlier(Root(s.core.key), s.pid, w.draws, w.draws + 1, prf.stateBytes);
    SeedKeepsRoot(prf, s.core.key, material);
    assert w.bytes + [] == w.bytes && w.givers + seq(0, _ => p) == w.givers;
    if s.pid == p {
      assert Owns(w, p);
      AddSeedKeeps(prf, w.bytes, s.core, material);
    }
    Update(prf, w, p, s', []);
  }

  /** A refused call only uses up a draw. */
  lemma Unchanged(prf: Prf<Sym>, w: World<Sym>, p: int)
    requires Isolated(prf, w) && p in w.procs
    ensures Isolated(prf, World(w.procs[p := w.procs[p]], w.draws + 1, w.bytes, w.givers))
  {
    var s := w.procs[p];
    if s.Live? { DrawnEarlier(Root(s.core.key), s.pid, w.draws, w.draws + 1, prf.stateBytes); }
    assert w.bytes + [] == w.bytes && w.givers + seq(0, _ => p) == w.givers;
    assert Owns(w, p) <==> s.Live? && s.pid == p;
    Update(prf, w, p, s, []);
  }

  lemma FeedKeeps(prf: Prf<Sym>, w: World<Sym>, p: int, seed: seq<byte>, supply: Supply)
    requires Isolated(prf, w) && p in w.procs
    ensures Isolated(prf, Happen(prf, w, Feed(p, seed, supply)))
  {
    hide Inv, Root, AddSeed, NoDup, DrawnBy;
    if w.procs[p].Live? && seed != [] {
      FeedLive(prf, w, p, Literals(seed));
    } else if w.procs[p].Live? && supply.Supplies? && supply.n >= prf.stateBytes {
      FeedLive(prf, w, p, EntropyBytes(p, w.draws, supply.n));
    } else {
      Unchanged(prf, w, p);
    }
  }

  /** What a request that passes its checks hands out, and the state it leaves. */
  lemma AskAnswers(prf: Prf<Sym>, w: World<Sym>, p: int, op: Op, supply: Supply)
    requires Isolated(prf, w) && p in w.procs && Supported(op) && Affordable(prf, w, Ask(p, op, supply))
    ensures var c := Check(prf, w.procs[p], p, Drawing(w, p, supply));
            c.outcome.Done? ==>
              var r := Perform(prf, c.session.core, op);
              && Inv(w.bytes + r.out, r.state, 0)
              && Root(r.state.key) == Root(c.session.core.key) && RootedIn(r.out, Root(r.state.key))
              && DrawnBy(Root(r.state.key), p, w.draws + 1, prf.stateBytes)
  {
    hide Inv, GetBytes, Tiny, Construct, Root, NoDup, RootedIn;
    var s := w.procs[p];
    var c := Check(prf, s, p, Drawing(w, p, supply));
    if c.outcome.Done? {
      if s.Live? { DrawnEarlier(Root(s.core.key), s.pid, w.draws, w.draws + 1, prf.stateBytes); }
      FreshStart(prf, w, p, supply);
      var core := c.session.core;
      assert Inv(w.bytes, core, 0) by { if s.pid == p { assert Owns(w, p); } }
      match op {
        case Bytes(n) => GetBytesKeeps(prf, w.bytes, core, n);
        case Int(k) => TinyKeeps(prf, w.bytes, core, k);
      }
    }
  }

  lemma AskKeeps(prf: Prf<Sym>, w: World<Sym>, p: int, op: Op, supply: Supply)
    requires Isolated(prf, w) && p in w.procs && Affordable(prf, w, Ask(p, op, supply))
    ensures Isolated(prf, Happen(prf, w, Ask(p, op, supply)))
  {
    hide Inv, Perform, Construct, Root, NoDup, RootedIn, DrawnBy;
    if Supported(op) {
      var c := Check(prf, w.procs[p], p, Drawing(w, p, supply));
      if c.outcome.Refused? {
        assert w.bytes + [] == w.bytes && w.givers + seq(0, _ => p) == w.givers;
        Unchanged(prf, w, p);
      } else {
        AskAnswers(prf, w, p, op, supply);
        var r := Perform(prf, c.session.core, op);
        CleanLog(w.bytes + r.out, r.state);
        Update(prf, w, p, Live(p, r.state), r.out);
      }
    }
  }

  lemma CleanLog(log: seq<Sym>, s: State<Sym>)
    requires Inv(log, s, 0)
    ensures NoDup(log)
  {
    DropKeeps(log, s, 0);
    assert log + [] == log;
  }

  // ----- runs

  function Run(prf: Prf<Sym>, w: World<Sym>, es: seq<Event>): (w': World<Sym>)
    requires Fine(prf, w)
    ensures Fine(prf, w')
    decreases |es|
  {
    if es == [] then w else Run(prf, Happen(prf, w, es[0]), es[1..])
  }

  ghost predicate AllAllowed(prf: Prf<Sym>, w: World<Sym>, es: seq<Event>)
    requires Fine(prf, w)
    decreases |es|
  {
    es == [] || (Allowed(prf, w, es[0]) && AllAllowed(prf, Happen(prf, w, es[0]), es[1..]))
  }

  lemma HappenKeeps(prf: Prf<Sym>, w: World<Sym>, e: Event)
    requires Isolated(prf, w) && Allowed(prf, w, e)
    ensures Isolated(prf, Happen(prf, w, e))
  {
    if e.p in w.procs {
      match e {
        case Start(p, supply) => StartKeeps(prf, w, p, supply);
        case Split(p, child) => SplitKeeps(prf, w, p, child);
        case Exit(p) => ExitKeeps(prf, w, p);
        case Feed(p, seed, supply) => FeedKeeps(prf, w, p, seed, supply);
        case Ask(p, op, supply) => AskKeeps(prf, w, p, op, supply);
      }
    }
  }

  lemma {:induction false} RunKeeps(prf: Prf<Sym>, w: World<Sym>, es: seq<Event>)
    requires Isolated(prf, w) && AllAllowed(prf, w, es)
    ensures Isolated(prf, Run(prf, w, es))
    decreases |es|
  {
    if es != [] {
      HappenKeeps(prf, w, es[0]);
      RunKeeps(prf, Happen(prf, w, es[0]), es[1..]);
    }
  }

  lemma BootIsIsolated(prf: Prf<Sym>, first: int)
    requires OverSymbols(prf)
    ensures Isolated(prf, Boot(first))
  {
  }

  /** From one uninitialized process on, under any interleaving: a byte handed out by a process
      goes back to a draw of that process; no byte is handed out twice, in one process or in two;
      and in every process that was seeded since its fork, no byte that was handed out is part of
      its key or of a key that one was made from, nor still buffered.  Keys.dfy covers the keys
      that were replaced since. */
  lemma NothingIsSharedOrReused(prf: Prf<Sym>, first: int, es: seq<Event>)
    requires OverSymbols(prf) && AllAllowed(prf, Boot(first), es)
    ensures var w := Run(prf, Boot(first), es);
            && |w.givers| == |w.bytes|
            && (forall i | 0 <= i < |w.bytes| ::
                  w.bytes[i].Out? && DrawnBy(Root(w.bytes[i].key), w.givers[i], w.draws, prf.stateBytes))
            && NoDup(w.bytes)
            && (forall p | Owns(w, p) :: Clean(w.bytes, w.procs[p].core))
  {
    hide Run, Root, NoDup, Clean, Before, KeyBytesBefore, RootedIn, DrawnBy;
    BootIsIsolated(prf, first);
    RunKeeps(prf, Boot(first), es);
  }

  // ----- a reused identifier

  /** 1 forks 2 and exits, and 2 forks a process that gets identifier 1 again. */
  function RebornRun(sb: nat, n: nat): (es: seq<Event>) {
    [Start(1, Supplies(sb)), Split(1, 2), Ask(1, Bytes(n), Fails(3)), Exit(1), Split(2, 1), Ask(1, Bytes(n), Fails(3))]
  }

  function FirstCore(prf: Prf<Sym>, p: int): (core: State<Sym>)
    requires prf.WellFormed()
    ensures Quiet(prf, core) && |core.buf| == prf.outputLen - prf.stateBytes
  {
    Construct(prf, EntropyBytes(p, 0, prf.stateBytes))
  }

  lemma FirstStart(prf: Prf<Sym>, p: int)
    requires OverSymbols(prf)
    ensures var w := Happen(prf, Boot(p), Start(p, Supplies(prf.stateBytes)));
            w.procs == map[p := Live(p, FirstCore(prf, p))] && w.bytes == []
  {
  }

  lemma AskOwner(prf: Prf<Sym>, w: World<Sym>, p: int, core: State<Sym>, n: nat)
    requires Fine(prf, w) && p in w.procs && w.procs[p] == Live(p, core)
    ensures var r := GetBytes(prf, core, n);
            var w' := Happen(prf, w, Ask(p, Bytes(n), Fails(3)));
            w'.procs == w.procs[p := Live(p, r.state)] && w'.bytes == w.bytes + r.out
  {
    hide GetBytes;
  }

  lemma SplitOrExit(prf: Prf<Sym>, w: World<Sym>, e: Event)
    requires Fine(prf, w) && e.p in w.procs && (e.Exit? || (e.Split? && e.child !in w.procs))
    ensures var w' := Happen(prf, w, e);
            && w'.procs == (if e.Exit? then w.procs - {e.p} else w.procs[e.child := w.procs[e.p]])
            && w'.bytes == w.bytes
  {
  }

  /** The new process 1 takes the old state for its own and hands out the same bytes again. */
  lemma RebornProcessRepeats(prf: Prf<Sym>, n: nat)
    requires OverSymbols(prf) && n > 0
    ensures var w := Run(prf, Boot(1), RebornRun(prf.stateBytes, n));
            |w.bytes| == 2 * n && w.bytes[..n] == w.bytes[n..] && !NoDup(w.bytes)
  {
    hide GetBytes, Happen, FirstCore, Run;
    var es, w0, core := RebornRun(prf.stateBytes, n), Boot<Sym>(1), FirstCore(prf, 1);
    FirstStart(prf, 1);
    RunStep(prf, w0, es);
    var w1 := Happen(prf, w0, es[0]);
    SplitOrExit(prf, w1, es[1]);
    RunStep(prf, w1, es[1..]);
    var w2 := Happen(prf, w1, es[1]);
    AskOwner(prf, w2, 1, core, n);
    RunStep(prf, w2, es[2..]);
    var w3 := Happen(prf, w2, es[2]);
    RebornHalf(prf, w3, core, n);
    assert es[3..] == RebornRun(prf.stateBytes, n)[3..];
    assert Run(prf, w0, es) == Run(prf, w3, es[3..]);
    var out := GetBytes(prf, core, n).out;
    assert (out + out)[0] == (out + out)[n];
  }

  lemma RebornHalf(prf: Prf<Sym>, w: World<Sym>, core: State<Sym>, n: nat)
    requires Fine(prf, w) && Quiet(prf, core)
    requires 1 in w.procs && w.procs.Keys == {1, 2} && w.procs[2] == Live(1, core)
    ensures Run(prf, w, RebornRun(prf.stateBytes, n)[3..]).bytes == w.bytes + GetBytes(prf, core, n).out
  {
    hide GetBytes, Happen, Run;
    var es := RebornRun(prf.stateBytes, n)[3..];
    SplitOrExit(prf, w, es[0]);
    RunStep(prf, w, es);
    var w4 := Happen(prf, w, es[0]);
    SplitOrExit(prf, w4, es[1]);
    RunStep(prf, w4, es[1..]);
    var w5 := Happen(prf, w4, es[1]);
    AskOwner(prf, w5, 1, core, n);
    RunStep(prf, w5, es[2..]);
  }

  lemma RunStep(prf: Prf<Sym>, w: World<Sym>, es: seq<Event>)
    requires Fine(prf, w) && es != []
    ensures Run(prf, w, es) == Run(prf, Happen(prf, w, es[0]), es[1..])
    ensures |es| == 1 ==> Run(prf, w, es) == Happen(prf, w, es[0])
  {
  }
}
