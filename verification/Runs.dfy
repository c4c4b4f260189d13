/** Runs of real processes on real bytes, and what Fork.dfy and Keys.dfy say about them. */
module Runs {
  import opened Prf
  import E = Entropy
  import opened Session
  import opened Provenance
  import opened Fork
  import opened Erasure
  import opened ChaCha
  import opened Streams
  import Keys
  import opened Heads

  /** The entropy sources fill in the bytes that `m` gives for this process and draw. */
  function RealDraw(m: Meaning, draws: nat, e: Event): (d: E.Draw<byte>) {
    if e.Split? || e.Exit? then E.NoDraw(0)
    else
      match e.supply
      case Fails(err) => E.NoDraw(err)
      case Supplies(n) => E.Got(seq(n, i requires 0 <= i < n => m.entropy(e.p, draws, i)), {})
  }

  function RealHappen(prf: Prf<byte>, m: Meaning, w: World<byte>, e: Event): (w': World<byte>)
    requires Tidy(prf, w)
    ensures Tidy(prf, w')
  {
    Effect(prf, w, e, RealDraw(m, w.draws, e), if e.Feed? then e.seed else [])
  }

  function RealRun(prf: Prf<byte>, m: Meaning, w: World<byte>, es: seq<Event>): (w': World<byte>)
    requires Tidy(prf, w)
    ensures Tidy(prf, w')
    decreases |es|
  {
    if es == [] then w else RealRun(prf, m, RealHappen(prf, m, w, es[0]), es[1..])
  }

  // ----- they are the values of symbolic runs

  function EvalWorld(m: Meaning, w: World<Sym>): (r: World<byte>) {
    World(map p | p in w.procs :: EvalSession(m, w.procs[p]), w.draws, EvalAll(m, w.bytes), w.givers)
  }

  lemma EvalTidy(prf: Prf<byte>, sym: Prf<Sym>, m: Meaning, w: World<Sym>)
    requires Reads(prf, sym, m) && Fine(sym, w)
    ensures Tidy(prf, EvalWorld(m, w))
  {
    forall p | p in w.procs ensures Sound(prf, EvalSession(m, w.procs[p])) {
      if w.procs[p].Live? { EvalQuiet(prf, sym, m, w.procs[p].core); }
    }
  }

  lemma EvalDrawIs(m: Meaning, w: World<Sym>, e: Event)
    ensures EvalDraw(m, DrawFor(w, e)) == RealDraw(m, w.draws, e)
  {
  }

  lemma EvalMaterial(m: Meaning, e: Event)
    ensures EvalAll(m, Material(e)) == if e.Feed? then e.seed else []
  {
  }

  lemma HappenCommutes(prf: Prf<byte>, sym: Prf<Sym>, m: Meaning, w: World<Sym>, e: Event)
    requires Reads(prf, sym, m) && Fine(sym, w)
    ensures Tidy(prf, EvalWorld(m, w)) && EvalWorld(m, Happen(sym, w, e)) == RealHappen(prf, m, EvalWorld(m, w), e)
  {
    hide Init, Rand, Seed, Reads, EvalAll, EvalDraw, EvalSession, RealDraw, DrawFor, Material, OverSymbols;
    EvalTidy(prf, sym, m, w);
    EvalDrawIs(m, w, e);
    EvalMaterial(m, e);
    if e.p in w.procs {
      var s, draw := w.procs[e.p], DrawFor(w, e);
      if e.Ask? {
        AskCommutes(prf, sym, m, w, e);
      } else {
        CallsCommute(prf, sym, m, s, draw, e.p, Int(4), Material(e));
      }
    }
  }

  lemma AskCommutes(prf: Prf<byte>, sym: Prf<Sym>, m: Meaning, w: World<Sym>, e: Event)
    requires Reads(prf, sym, m) && Fine(sym, w) && Tidy(prf, EvalWorld(m, w)) && e.Ask? && e.p in w.procs
    requires EvalDraw(m, DrawFor(w, e)) == RealDraw(m, w.draws, e)
    ensures EvalWorld(m, Happen(sym, w, e)) == RealHappen(prf, m, EvalWorld(m, w), e)
  {
    hide Init, Rand, Seed, Reads, EvalAll, EvalDraw, EvalSession, RealDraw, DrawFor, Material, OverSymbols;
    if Supported(e.op) {
      var s, draw := w.procs[e.p], DrawFor(w, e);
      CallsCommute(prf, sym, m, s, draw, e.p, e.op, []);
      var r := Rand(sym, s, e.op, e.p, draw);
      var out := if r.outcome.Done? then r.outcome.out else [];
      EvalConcat(m, w.bytes, out);
      NoBytes(m);
    }
  }

  lemma NoBytes(m: Meaning)
    ensures EvalAll(m, []) == []
  {
  }

  /** A run on bytes has the values of the same run on terms. */
  lemma {:induction false} RunCommutes(prf: Prf<byte>, sym: Prf<Sym>, m: Meaning, w: World<Sym>, es: seq<Event>)
    requires Reads(prf, sym, m) && Fine(sym, w)
    ensures Tidy(prf, EvalWorld(m, w)) && EvalWorld(m, Run(sym, w, es)) == RealRun(prf, m, EvalWorld(m, w), es)
    decreases |es|
  {
    hide Happen, RealHappen, EvalWorld, Reads, OverSymbols;
    EvalTidy(prf, sym, m, w);
    if es != [] {
      HappenCommutes(prf, sym, m, w, es[0]);
      RunCommutes(prf, sym, m, Happen(sym, w, es[0]), es[1..]);
    }
  }

  /** The whole of it for ChaCha: a run of processes that share nothing but forks and ChaCha code hands out
      the values of terms no two of which are the same, each from a keystream of a key that goes back to
      a draw of the process that hands it out, and none of them in a key that a process has had while it
      owned its state.  For the keys of all other states it says which are shared. */
  lemma ChaChaRunsAreClean(rounds: nat, step: nat, entropy: (int, nat, nat) -> byte, boot: int,
                           before: seq<Event>, after: seq<Event>)
    requires 2 <= step <= 16
    requires AllAllowed(SymPrf(40, 64 * step), Boot(boot), before + after)
    ensures var sym, m := SymPrf(40, 64 * step), ChaChaMeaning(rounds, entropy);
            var mid, end := Run(sym, Boot(boot), before), Run(sym, Boot(boot), before + after);
            && RealRun(ChaChaPrf(rounds, step), m, Boot(boot), before + after) == EvalWorld(m, end)
            && |end.givers| == |end.bytes| && NoDup(end.bytes)
            && (forall i | 0 <= i < |end.bytes| ::
                  end.bytes[i].Out? && DrawnBy(Root(end.bytes[i].key), end.givers[i], end.draws, 40))
            && (forall p, k | Owns(mid, p) && k in Line(mid.procs[p].core.key) :: Avoids(end.bytes, k))
            && (forall p, k | p in mid.procs && mid.procs[p].Live? && k in Line(mid.procs[p].core.key) ::
                  Avoids(end.bytes, k) <==>
                    !(FirstMade(40, k) && BlocksTaken(sym, Boot(boot), before + after, Parent(k))))
  {
    hide ChaChaMeaning, BlockBytes, SymBlock, EvalWorld, Happen, RealHappen, Run, RealRun, AllAllowed, Root, Line,
         Avoids, NoDup, MadeFromHead, BlocksTaken, DrawnBy, Clean, Reads;
    var sym, m := SymPrf(40, 64 * step), ChaChaMeaning(rounds, entropy);
    var mid := Run(sym, Boot(boot), before);
    ChaChaReads(rounds, step, entropy);
    RunCommutes(ChaChaPrf(rounds, step), sym, m, Boot(boot), before + after);
    EvalBoot(m, boot);
    NothingIsSharedOrReused(sym, boot, before + after);
    forall p, k | Owns(mid, p) && k in Line(mid.procs[p].core.key)
      ensures Avoids(Run(sym, Boot(boot), before + after).bytes, k)
    {
      Keys.KeysStayApart(sym, boot, before, after, p, k);
    }
    forall p, k | p in mid.procs && mid.procs[p].Live? && k in Line(mid.procs[p].core.key)
      ensures Avoids(Run(sym, Boot(boot), before + after).bytes, k) <==>
                !(FirstMade(40, k) && BlocksTaken(sym, Boot(boot), before + after, Parent(k)))
    {
      KeyIsApartIff(sym, boot, before, after, p, k);
    }
  }

  lemma EvalBoot(m: Meaning, boot: int)
    ensures EvalWorld(m, Boot(boot)) == Boot(boot)
  {
    NoBytes(m);
  }
}
