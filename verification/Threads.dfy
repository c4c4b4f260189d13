/** The locked calls of the generator as the work that Locking.dfy interleaves. */
module Threads {
  import opened Prf
  import opened Machine
  import E = Entropy
  import S = Session
  import opened Range
  import opened Locking

  /** The locked calls, with what the entropy sources do if a call asks them. */
  datatype Call =
    | Bytes(n: nat, draw: E.Draw<byte>)
    | Integer(wide: bool, draw: E.Draw<byte>)
    | InRange(wide: bool, limit: nat, draw: E.Draw<byte>)
    | AddSeed(seed: seq<byte>, draw: E.Draw<byte>)

  /** The value of a range draw, or the outcome of another call. */
  datatype Answer = Number(value: nat) | Returned(outcome: S.Outcome<byte>)

  /** The upper end of a range, as a value of the integer type. */
  function Upper(c: Call): (u: nat)
    requires c.InRange?
    ensures u < Span(Width(c.wide))
  {
    c.limit % Span(Width(c.wide))
  }

  function OpOf(c: Call): (op: S.Op)
    requires !c.AddSeed?
    ensures S.Supported(op)
  {
    match c
    case Bytes(n, _) => S.Bytes(n)
    case Integer(wide, _) => S.Int(Width(wide))
    case InRange(wide, _, _) => S.Int(Width(wide))
  }

  ghost predicate Initialized(prf: Prf<byte>, s: S.Session<byte>) {
    prf.WellFormed() && S.Sound(prf, s) && s.Live?
  }

  /** One round of a range draw; a refused round reads 0, which is accepted. */
  ghost function Round(prf: Prf<byte>, self: int, s: S.Session<byte>, c: Call): (r: (S.Session<byte>, Option<Answer>))
    requires Initialized(prf, s) && c.InRange?
    ensures Initialized(prf, r.0)
  {
    var span, step := Span(Width(c.wide)), S.Rand(prf, s, OpOf(c), self, c.draw);
    var w := if step.outcome.Refused? then 0 else Value(step.outcome.out);
    (step.session, if Accepts(span, Upper(c), w) then Some(Number(Reduce(span, Upper(c), w))) else None)
  }

  /** The parts of a call under the lock: first the check for a fork, then the request; the rounds of
      a range draw; all of an add-seed. */
  ghost function Part(prf: Prf<byte>, self: int, s: S.Session<byte>, c: Call, i: nat):
    (r: (S.Session<byte>, Option<Answer>))
    requires Initialized(prf, s)
    ensures Initialized(prf, r.0)
  {
    match c
    case InRange(_, _, _) => Round(prf, self, s, c)
    case AddSeed(seed, draw) =>
      var step := S.Seed(prf, s, seed, draw);
      (step.session, Some(Returned(step.outcome)))
    case _ =>
      if i == 0 then
        var step := S.Check(prf, s, self, c.draw);
        (step.session, if step.outcome.Refused? then Some(Returned(step.outcome)) else None)
      else
        var r := S.Perform(prf, s.core, OpOf(c));
        (S.Live(self, r.state), Some(Returned(S.Done(r.out))))
  }

  /** An add-seed that gets no entropy returns before it takes the lock. */
  function Early(prf: Prf<byte>, c: Call): (r: Option<Answer>) {
    if c.AddSeed? && c.seed == [] then
      match c.draw
      case NoDraw(err) => Some(Returned(S.Refused(err)))
      case Got(b, _) => if |b| < prf.stateBytes then Some(Returned(S.Refused(E.ERR_ACCESS_STRONG_RNG))) else None
    else None
  }

  ghost function Generator(prf: Prf<byte>, self: int): (r: Code<S.Session<byte>, Call, Answer>) {
    Code(s => Initialized(prf, s), c => Early(prf, c),
         (s, c, i) => if Initialized(prf, s) then Part(prf, self, s, c, i) else (s, None))
  }

  /** A failed call leaves the state initialized, like any other. */
  lemma CallsStayLive(prf: Prf<byte>, self: int)
    ensures StaysLive(Generator(prf, self))
  {
    hide Generator, Part, Initialized, Locking.Live, Locking.Part;
    var code := Generator(prf, self);
    forall s, c, i: nat | Locking.Live(code, s)
      ensures Locking.Live(code, Locking.Part(code, s, c, i).0)
    {
      PartIs(prf, self, s, c, i);
    }
  }

  lemma PartIs(prf: Prf<byte>, self: int, s: S.Session<byte>, c: Call, i: nat)
    requires Locking.Live(Generator(prf, self), s)
    ensures Initialized(prf, s) && Locking.Part(Generator(prf, self), s, c, i) == Part(prf, self, s, c, i)
    ensures Locking.Live(Generator(prf, self), Part(prf, self, s, c, i).0)
  {
    hide Part, S.Sound;
  }

  // ----- the parts make up the calls of Session.dfy

  /** Request: the two parts are the check and the request of `Rand`. */
  lemma RequestAlone(prf: Prf<byte>, self: int, s: S.Session<byte>, c: Call)
    requires Initialized(prf, s) && (c.Bytes? || c.Integer?)
    ensures var r := S.Rand(prf, s, OpOf(c), self, c.draw);
            Alone(Generator(prf, self), s, c, 2) == (r.session, Some(Returned(r.outcome)))
  {
    hide S.Check, S.Perform, S.Sound;
    var code := Generator(prf, self);
    var p := Part(prf, self, s, c, 0);
    assert Parts(code, s, c, 0) == (s, None);
    assert Parts(code, s, c, 1) == p;
  }

  lemma SeedAlone(prf: Prf<byte>, self: int, s: S.Session<byte>, c: Call)
    requires Initialized(prf, s) && c.AddSeed?
    ensures var r := S.Seed(prf, s, c.seed, c.draw);
            Alone(Generator(prf, self), s, c, 1) == (r.session, Some(Returned(r.outcome)))
  {
    hide S.Sound, Machine.AddSeed;
    var code := Generator(prf, self);
    assert Parts(code, s, c, 0) == (s, None);
  }

  /** The first round of a range draw, and then the others. */
  lemma {:induction false} FirstRound(prf: Prf<byte>, self: int, s: S.Session<byte>, c: Call, n: nat)
    requires Initialized(prf, s) && c.InRange?
    ensures var p := Round(prf, self, s, c);
            Parts(Generator(prf, self), s, c, n + 1) == if p.1.Some? then p else Parts(Generator(prf, self), p.0, c, n)
  {
    hide Round, Initialized;
    var code, p := Generator(prf, self), Round(prf, self, s, c);
    if n == 0 {
      assert Parts(code, s, c, 0) == (s, None) && Parts(code, p.0, c, 0) == (p.0, None);
    } else {
      FirstRound(prf, self, s, c, n - 1);
      RoundsStayLive(prf, self, p.0, c, n - 1);
    }
  }

  lemma {:induction false} RoundsStayLive(prf: Prf<byte>, self: int, s: S.Session<byte>, c: Call, n: nat)
    requires Initialized(prf, s)
    ensures Initialized(prf, Parts(Generator(prf, self), s, c, n).0)
  {
    hide Part, Initialized;
    if n > 0 { RoundsStayLive(prf, self, s, c, n - 1); }
  }

  /** Range: the rounds are the attempts of Range.dfy, so the result is the first accepted draw; a
      refused call returns 0. */
  lemma {:induction false} RangeAlone(prf: Prf<byte>, self: int, s: S.Session<byte>, c: Call, tries: nat)
    requires Initialized(prf, s) && c.InRange? && tries > 0
    ensures var k, step := Width(c.wide), S.Check(prf, s, self, c.draw);
            match step.outcome
            case Refused(_) => Alone(Generator(prf, self), s, c, tries) == (s, Some(Number(0)))
            case Done(_) =>
              match Attempt(prf, step.session.core, k, Upper(c), tries)
              case Picked(state, value) =>
                Alone(Generator(prf, self), s, c, tries) == (S.Live(self, state), Some(Number(value)))
              case Rejected(state) => Alone(Generator(prf, self), s, c, tries) == (S.Live(self, state), None)
    decreases tries
  {
    hide S.FromDraw, Tiny, Value, Span, Accepts, Reduce, Upper, S.Sound;
    var code, k := Generator(prf, self), Width(c.wide);
    var step, p := S.Check(prf, s, self, c.draw), Round(prf, self, s, c);
    FirstRound(prf, self, s, c, tries - 1);
    ZeroIsAccepted(Span(k), Upper(c));
    if step.outcome.Done? && p.1.None? {
      if tries > 1 {
        RangeAlone(prf, self, p.0, c, tries - 1);
      } else {
        assert Parts(code, p.0, c, 0) == (p.0, None);
      }
    }
  }

  // ----- making the calls one at a time

  /** What a call does when it runs alone, in terms of Session.dfy and Range.dfy.  A range draw for which no
      integer is ever accepted has no answer. */
  ghost function Does(prf: Prf<byte>, self: int, s: S.Session<byte>, c: Call): (r: (S.Session<byte>, Option<Answer>))
    requires Initialized(prf, s)
    ensures Initialized(prf, r.0)
  {
    match c
    case InRange(_, _, _) => Ranged(prf, self, s, c)
    case AddSeed(seed, draw) =>
      var step := S.Seed(prf, s, seed, draw);
      (step.session, Some(Returned(step.outcome)))
    case _ =>
      var step := S.Rand(prf, s, OpOf(c), self, c.draw);
      (step.session, Some(Returned(step.outcome)))
  }

  ghost function Ranged(prf: Prf<byte>, self: int, s: S.Session<byte>, c: Call): (r: (S.Session<byte>, Option<Answer>))
    requires Initialized(prf, s) && c.InRange?
    ensures Initialized(prf, r.0)
  {
    var step, k := S.Check(prf, s, self, c.draw), Width(c.wide);
    if step.outcome.Refused? then (s, Some(Number(0)))
    else if exists tries: nat :: Attempt(prf, step.session.core, k, Upper(c), tries).Picked? then
      var tries: nat :| Attempt(prf, step.session.core, k, Upper(c), tries).Picked?;
      var pick := Attempt(prf, step.session.core, k, Upper(c), tries);
      (S.Live(self, pick.state), Some(Number(pick.value)))
    else (s, None)
  }

  /** The session after these calls, one at a time. */
  ghost function SessionAfter(prf: Prf<byte>, self: int, s: S.Session<byte>, calls: seq<Call>): (r: S.Session<byte>)
    requires Initialized(prf, s)
    ensures Initialized(prf, r)
  {
    if calls == [] then s
    else Does(prf, self, SessionAfter(prf, self, s, calls[..|calls| - 1]), calls[|calls| - 1]).0
  }

  function CallsIn(history: seq<Entry<Call, Answer>>): (calls: seq<Call>)
    ensures |calls| == |history|
  {
    if history == [] then [] else CallsIn(history[..|history| - 1]) + [history[|history| - 1].call]
  }

  lemma PartsAgree(prf: Prf<byte>, self: int, s: S.Session<byte>, c: Call, m: nat, n: nat)
    requires Parts(Generator(prf, self), s, c, m).1.Some? && Parts(Generator(prf, self), s, c, n).1.Some?
    ensures Parts(Generator(prf, self), s, c, m) == Parts(Generator(prf, self), s, c, n)
  {
    if m <= n {
      EndedStays(Generator(prf, self), s, c, m, n);
    } else {
      EndedStays(Generator(prf, self), s, c, n, m);
    }
  }

  /** Whatever number of parts it took, a call that ended did what `Does` says. */
  lemma AloneDoes(prf: Prf<byte>, self: int, s: S.Session<byte>, c: Call, n: nat)
    requires Initialized(prf, s) && Alone(Generator(prf, self), s, c, n).1.Some?
    ensures Alone(Generator(prf, self), s, c, n) == Does(prf, self, s, c)
  {
    hide Parts, Initialized, S.Rand, S.Seed, Generator, Ranged, OpOf;
    if c.InRange? {
      NotEarly(prf, self, c);
      NoParts(prf, self, s, c);
      RangeDoes(prf, self, s, c, n);
    } else if c.AddSeed? {
      SeedAlone(prf, self, s, c);
      if Locking.Early(Generator(prf, self), c).None? { PartsAgree(prf, self, s, c, n, 1); }
    } else {
      NotEarly(prf, self, c);
      RequestAlone(prf, self, s, c);
      PartsAgree(prf, self, s, c, n, 2);
    }
  }

  lemma NotEarly(prf: Prf<byte>, self: int, c: Call)
    requires !c.AddSeed?
    ensures Locking.Early(Generator(prf, self), c).None?
  {
  }

  lemma NoParts(prf: Prf<byte>, self: int, s: S.Session<byte>, c: Call)
    ensures Parts(Generator(prf, self), s, c, 0) == (s, None)
  {
  }

  lemma RangeDoes(prf: Prf<byte>, self: int, s: S.Session<byte>, c: Call, n: nat)
    requires Initialized(prf, s) && c.InRange? && n > 0 && Alone(Generator(prf, self), s, c, n).1.Some?
    ensures Alone(Generator(prf, self), s, c, n) == Ranged(prf, self, s, c)
  {
    hide Alone, Attempt, Upper, S.FromDraw;
    RangeAlone(prf, self, s, c, n);
    var step, k := S.Check(prf, s, self, c.draw), Width(c.wide);
    if step.outcome.Done? {
      var core := step.session.core;
      forall tries: nat | Attempt(prf, core, k, Upper(c), tries).Picked?
        ensures Attempt(prf, core, k, Upper(c), tries) == Attempt(prf, core, k, Upper(c), n)
      {
        if tries <= n {
          PickStays(prf, core, k, Upper(c), tries, n);
        } else {
          PickStays(prf, core, k, Upper(c), n, tries);
        }
      }
    }
  }

  lemma FrontIsSequential(prf: Prf<byte>, self: int, s0: S.Session<byte>, history: seq<Entry<Call, Answer>>)
    requires history != [] && Sequential(Generator(prf, self), s0, history)
    ensures var code, front, e := Generator(prf, self), history[..|history| - 1], history[|history| - 1];
            && Sequential(code, s0, front)
            && Alone(code, Locking.After(code, s0, front), e.call, e.parts).1 == Some(e.result)
            && Locking.After(code, s0, history) == Alone(code, Locking.After(code, s0, front), e.call, e.parts).0
  {
    hide Alone, Generator;
    var front := history[..|history| - 1];
    forall i | 0 <= i < |front| ensures history[..i] == front[..i] && history[i] == front[i] {}
    assert history[..|front|] == front;
  }

  lemma SessionStep(prf: Prf<byte>, self: int, s0: S.Session<byte>, history: seq<Entry<Call, Answer>>)
    requires Initialized(prf, s0) && history != []
    ensures var front, e := history[..|history| - 1], history[|history| - 1];
            SessionAfter(prf, self, s0, CallsIn(history))
            == Does(prf, self, SessionAfter(prf, self, s0, CallsIn(front)), e.call).0
  {
    hide Does, Initialized;
    var front := history[..|history| - 1];
    assert CallsIn(history)[..|front|] == CallsIn(front);
  }

  /** Each result is what its call gives on the fold of the calls before it. */
  ghost predicate Answered(prf: Prf<byte>, self: int, s0: S.Session<byte>, history: seq<Entry<Call, Answer>>)
    requires Initialized(prf, s0)
  {
    forall i | 0 <= i < |history| ::
      Does(prf, self, SessionAfter(prf, self, s0, CallsIn(history[..i])), history[i].call).1 == Some(history[i].result)
  }

  /** A history is a fold of calls: the state after it, and each result in it. */
  lemma {:induction false} HistoryIsFold(
    prf: Prf<byte>, self: int, s0: S.Session<byte>, history: seq<Entry<Call, Answer>>)
    requires Initialized(prf, s0) && Sequential(Generator(prf, self), s0, history)
    ensures Locking.After(Generator(prf, self), s0, history) == SessionAfter(prf, self, s0, CallsIn(history))
    ensures Answered(prf, self, s0, history)
  {
    hide Does, Initialized, Generator, Alone, Sequential;
    if history != [] {
      var front, e := history[..|history| - 1], history[|history| - 1];
      FrontIsSequential(prf, self, s0, history);
      HistoryIsFold(prf, self, s0, front);
      AloneDoes(prf, self, SessionAfter(prf, self, s0, CallsIn(front)), e.call, e.parts);
      SessionStep(prf, self, s0, history);
      AnsweredGrows(prf, self, s0, history);
    }
  }

  lemma AnsweredGrows(prf: Prf<byte>, self: int, s0: S.Session<byte>, history: seq<Entry<Call, Answer>>)
    requires Initialized(prf, s0) && history != [] && Answered(prf, self, s0, history[..|history| - 1])
    requires var front, e := history[..|history| - 1], history[|history| - 1];
             Does(prf, self, SessionAfter(prf, self, s0, CallsIn(front)), e.call).1 == Some(e.result)
    ensures Answered(prf, self, s0, history)
  {
    hide Does, SessionAfter, CallsIn, Initialized;
    var front := history[..|history| - 1];
    forall i | 0 <= i < |history|
      ensures Does(prf, self, SessionAfter(prf, self, s0, CallsIn(history[..i])), history[i].call).1
              == Some(history[i].result)
    {
      if i < |front| { assert history[..i] == front[..i] && history[i] == front[i]; }
    }
  }

  /** Threads of one process that share an initialized generator get what they would get by making
      their calls one at a time, in the order in which those ended: whenever the lock is free, the state
      is the fold of these calls; each result is what its call gives on the fold of the calls before it;
      and each thread has made its calls in the order of its program and got those results. */
  lemma GeneratorIsSequential(
    prf: Prf<byte>, self: int, s0: S.Session<byte>, programs: seq<seq<Call>>, schedule: seq<nat>)
    requires Initialized(prf, s0)
    requires forall t <- schedule :: t < |programs|
    ensures var w := Run(Generator(prf, self), Boot(s0, programs), schedule);
            && |w.threads| == |programs| && Initialized(prf, w.shared)
            && (w.owner == NOBODY ==> w.shared == SessionAfter(prf, self, s0, CallsIn(w.history)))
            && Answered(prf, self, s0, w.history)
            && (forall t | 0 <= t < |programs| ::
                  && (Critical(w.threads[t].pc) <==> w.owner == t)
                  && CallsOf(w.history, t) + w.threads[t].todo == programs[t]
                  && (w.threads[t].pc.Idle? ==> w.threads[t].results == ResultsOf(w.history, t)))
  {
    hide Does, SessionAfter, Run, CallsOf, ResultsOf, Sequential, Locking.After, Initialized, CallsIn;
    CallsStayLive(prf, self);
    LiveIs(prf, self, s0);
    LockOrderIsSequential(Generator(prf, self), s0, programs, schedule);
    var w := Run(Generator(prf, self), Boot(s0, programs), schedule);
    LiveIs(prf, self, w.shared);
    HistoryIsFold(prf, self, s0, w.history);
  }

  lemma LiveIs(prf: Prf<byte>, self: int, s: S.Session<byte>)
    ensures Locking.Live(Generator(prf, self), s) <==> Initialized(prf, s)
  {
  }

  // ----- giving the lock back

  lemma CallsEnd(prf: Prf<byte>, self: int, s: S.Session<byte>, c: Call, i: nat)
    requires Initialized(prf, s) && !c.InRange?
    ensures EndsWithin(Generator(prf, self), s, c, i, 2)
  {
    hide S.Rand, S.Check, S.Seed, S.Perform, Initialized, Generator;
    var code, p := Generator(prf, self), Part(prf, self, s, c, i);
    LiveIs(prf, self, s);
    PartIs(prf, self, s, c, i);
    if p.1.None? {
      LiveIs(prf, self, p.0);
      PartIs(prf, self, p.0, c, i + 1);
      assert EndsWithin(code, p.0, c, i + 1, 1);
    }
  }

  /** A range draw ends if and only if it is refused or some integer it draws is accepted. */
  lemma RangeEndsIff(prf: Prf<byte>, self: int, s: S.Session<byte>, c: Call)
    requires Initialized(prf, s) && c.InRange?
    ensures (exists m: nat :: EndsWithin(Generator(prf, self), s, c, 0, m)) <==> Does(prf, self, s, c).1.Some?
  {
    hide Attempt, EndsWithin, Parts, Upper, S.FromDraw, Generator;
    var code := Generator(prf, self);
    NotEarly(prf, self, c);
    NoParts(prf, self, s, c);
    if m: nat :| EndsWithin(code, s, c, 0, m) {
      EndsIffParts(code, s, c, 0, m);
      AloneDoes(prf, self, s, c, m);
    }
    if Does(prf, self, s, c).1.Some? {
      var step, k := S.Check(prf, s, self, c.draw), Width(c.wide);
      var tries: nat := 1;
      if step.outcome.Done? {
        tries :| Attempt(prf, step.session.core, k, Upper(c), tries).Picked?;
        SomeTry(prf, step.session.core, k, Upper(c), tries);
      }
      RangeAlone(prf, self, s, c, tries);
      EndsIffParts(code, s, c, 0, tries);
      assert EndsWithin(code, s, c, 0, tries);
    }
  }

  lemma SomeTry(prf: Prf<byte>, s: State<byte>, k: nat, upper: nat, tries: nat)
    requires Quiet(prf, s) && k <= 8 && upper < Span(k) && Attempt(prf, s, k, upper, tries).Picked?
    ensures tries > 0
  {
  }

  /** A thread that holds the lock for a request or an add-seed, or whose range draw has its answer, gives
      it back within five steps of its own, whatever the other threads do in between. */
  lemma LockIsGivenBack(prf: Prf<byte>, self: int, s0: S.Session<byte>, programs: seq<seq<Call>>,
                        earlier: seq<nat>, later: seq<nat>, t: nat) returns (j: nat)
    requires Initialized(prf, s0)
    requires (forall u <- earlier :: u < |programs|) && (forall u <- later :: u < |programs|)
    requires var w := Run(Generator(prf, self), Boot(s0, programs), earlier);
             t < |w.threads| && w.owner == t &&
             (w.threads[t].pc.Worked? || (w.threads[t].todo != [] && !w.threads[t].todo[0].InRange?))
    requires StepsOf(later, t) >= 5
    ensures var w := Run(Generator(prf, self), Boot(s0, programs), earlier);
            && j <= |later| && (forall u <- later[..j] :: u < |w.threads|)
            && Run(Generator(prf, self), w, later[..j]).owner == NOBODY
  {
    hide Initialized, Run, StepsOf, Locking.Part, Parts, Locking.After, Sequential, CallsOf, ResultsOf,
         EndsWithin, Generator;
    var code := Generator(prf, self);
    CallsStayLive(prf, self);
    LiveIs(prf, self, s0);
    RunIsConsistent(code, s0, programs, earlier);
    var w := Run(code, Boot(s0, programs), earlier);
    LiveIs(prf, self, w.shared);
    var th := w.threads[t];
    if Midway(th.pc) { CallsEnd(prf, self, w.shared, th.todo[0], th.pc.done); }
    assert Critical(th.pc);
    assert Ending(code, w, t, 2);
    j := HolderReleases(code, s0, programs, w, t, 2, later);
  }

  /** A thread that holds the lock in the middle of a range draw keeps it under every schedule if and only
      if the draw has no answer: it passes its checks and no integer it would draw is ever accepted. */
  lemma RangeKeepsLockIff(prf: Prf<byte>, self: int, s0: S.Session<byte>, programs: seq<seq<Call>>,
                          earlier: seq<nat>, t: nat)
    requires Initialized(prf, s0)
    requires forall u <- earlier :: u < |programs|
    requires var w := Run(Generator(prf, self), Boot(s0, programs), earlier);
             t < |w.threads| && w.owner == t && Midway(w.threads[t].pc) &&
             w.threads[t].todo != [] && w.threads[t].todo[0].InRange?
    ensures var w := Run(Generator(prf, self), Boot(s0, programs), earlier);
            |w.threads| == |programs| &&
            ((forall later: seq<nat> | Within(later, |programs|) :: HeldAfter(prf, self, w, later, t)) <==>
               Does(prf, self, SessionAfter(prf, self, s0, CallsIn(w.history)), w.threads[t].todo[0]).1.None?)
  {
    hide Initialized, Run, Locking.Part, Parts, Locking.After, Sequential, CallsOf, ResultsOf, EndsWithin, Generator,
         Does, SessionAfter, CallsIn, Endless, Ending, Step;
    var code := Generator(prf, self);
    CallsStayLive(prf, self);
    LiveIs(prf, self, s0);
    RunIsConsistent(code, s0, programs, earlier);
    var w := Run(code, Boot(s0, programs), earlier);
    HistoryIsFold(prf, self, s0, w.history);
    var base, th := SessionAfter(prf, self, s0, CallsIn(w.history)), w.threads[t];
    assert ThreadOk(code, th, w.shared, base, t, w.history, programs[t]);
    if Does(prf, self, base, th.todo[0]).1.None? {
      NeverEnds(prf, self, base, w, t);
      forall later: seq<nat> | Within(later, |programs|) ensures HeldAfter(prf, self, w, later, t) {
        HolderKeeps(code, s0, programs, w, t, later);
      }
    } else {
      var m := EndsFrom(prf, self, base, w, t);
      var later := Only(t, StepsLeft(th.pc, m));
      assert Ending(code, w, t, m) by { EndingIs(code, w, t, m); }
      var j := HolderReleases(code, s0, programs, w, t, m, later);
      assert Within(later[..j], |programs|);
      assert !HeldAfter(prf, self, w, later[..j], t);
    }
  }

  predicate Within(schedule: seq<nat>, n: nat) { forall u <- schedule :: u < n }

  ghost predicate HeldAfter(
    prf: Prf<byte>, self: int, w: World<S.Session<byte>, Call, Answer>, later: seq<nat>, t: nat)
  {
    Within(later, |w.threads|) && Run(Generator(prf, self), w, later).owner == t
  }

  /** A schedule of one thread. */
  function Only(t: nat, n: nat): (schedule: seq<nat>)
    ensures StepsOf(schedule, t) == n && forall u <- schedule :: u == t
  {
    if n == 0 then [] else [t] + Only(t, n - 1)
  }

  lemma EndingIs<S(!new), C(!new), R(!new)>(code: Code<S, C, R>, w: Locking.World<S, C, R>, t: nat, m: nat)
    requires t < |w.threads| && w.owner == t && Midway(w.threads[t].pc) && w.threads[t].todo != []
    requires EndsWithin(code, w.shared, w.threads[t].todo[0], w.threads[t].pc.done, m)
    ensures Ending(code, w, t, m)
  {
  }

  /** The parts done so far of a range draw, and what `Does` says of the whole. */
  ghost predicate InTheMiddle(
    prf: Prf<byte>, self: int, base: S.Session<byte>, w: World<S.Session<byte>, Call, Answer>, t: nat)
  {
    && Initialized(prf, base)
    && t < |w.threads| && w.owner == t && Midway(w.threads[t].pc)
    && w.threads[t].todo != [] && w.threads[t].todo[0].InRange?
    && Parts(Generator(prf, self), base, w.threads[t].todo[0], w.threads[t].pc.done) == (w.shared, None)
  }

  lemma NeverEnds(prf: Prf<byte>, self: int, base: S.Session<byte>, w: World<S.Session<byte>, Call, Answer>, t: nat)
    requires InTheMiddle(prf, self, base, w, t) && Does(prf, self, base, w.threads[t].todo[0]).1.None?
    ensures Endless(Generator(prf, self), w, t)
  {
    hide Initialized, Parts, EndsWithin, Generator, Does;
    var c, done := w.threads[t].todo[0], w.threads[t].pc.done;
    NotEarly(prf, self, c);
    forall m: nat ensures !EndsWithin(Generator(prf, self), w.shared, c, done, m) {
      EndsIffParts(Generator(prf, self), base, c, done, m);
      if Parts(Generator(prf, self), base, c, done + m).1.Some? {
        AloneDoes(prf, self, base, c, done + m);
      }
    }
  }

  lemma EndsFrom(prf: Prf<byte>, self: int, base: S.Session<byte>, w: World<S.Session<byte>, Call, Answer>, t: nat)
    returns (m: nat)
    requires InTheMiddle(prf, self, base, w, t) && Does(prf, self, base, w.threads[t].todo[0]).1.Some?
    ensures EndsWithin(Generator(prf, self), w.shared, w.threads[t].todo[0], w.threads[t].pc.done, m)
  {
    hide Initialized, Parts, EndsWithin, Generator, Does;
    var code, c, done := Generator(prf, self), w.threads[t].todo[0], w.threads[t].pc.done;
    RangeEndsIff(prf, self, base, c);
    var n: nat :| EndsWithin(code, base, c, 0, n);
    NoParts(prf, self, base, c);
    EndsIffParts(code, base, c, 0, n);
    EndedStays(code, base, c, n, done + n);
    EndsIffParts(code, base, c, done, n);
    m := n;
  }
}
