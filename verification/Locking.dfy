/** Threads that share one state through a lock (src/ottery.c:462-489, 598-609, 689-696, 746-750,
    820-842).

    A locked call checks the magic number, takes the lock, works on the state in one or more
    parts, and releases the lock.  A part reads the state and then writes it back.  Each of
    these is a step, and steps of different threads interleave freely.  The lock is not
    recursive.  What the parts do is a parameter, and they need never come to an end. */
module Locking {

  datatype Option<T> = None | Some(value: T)

  /** `live` is the check made before taking the lock; `early` is the result of a call that gives
      up before taking it; `part` is part i of a call, and a result ends the call. */
  datatype Code<!S(!new), !C(!new), !R(!new)> =
    Code(live: S -> bool, early: C -> Option<R>, part: (S, C, nat) -> (S, Option<R>))

  predicate Live<S(!new), C(!new), R(!new)>(code: Code<S, C, R>, s: S) { code.live(s) }
  function Early<S(!new), C(!new), R(!new)>(code: Code<S, C, R>, c: C): (r: Option<R>) { code.early(c) }
  function Part<S(!new), C(!new), R(!new)>(code: Code<S, C, R>, s: S, c: C, i: nat): (r: (S, Option<R>)) {
    code.part(s, c, i)
  }

  /** No part takes an initialized state back. */
  ghost predicate StaysLive<S(!new), C(!new), R(!new)>(code: Code<S, C, R>) {
    forall s, c, i: nat :: Live(code, s) ==> Live(code, Part(code, s, c, i).0)
  }

  /** Holding and Copied count the parts done. */
  datatype Pc<S, R> = Idle | Checked | Holding(done: nat) | Copied(done: nat, local: S) | Worked(result: R)

  /** The calls a thread has still to make, and the results it has got. */
  datatype Thread<S, C, R> = Thread(pc: Pc<S, R>, todo: seq<C>, results: seq<R>)

  /** A call that has done its work, after so many parts. */
  datatype Entry<C, R> = Entry(thread: nat, call: C, parts: nat, result: R)

  datatype World<S, C, R> = World(shared: S, owner: int, threads: seq<Thread<S, C, R>>, history: seq<Entry<C, R>>)

  const NOBODY: int := -1

  /** The next step of thread t; a thread that waits for the lock, or is done, does nothing. */
  function Step<S(!new), C(!new), R(!new)>(code: Code<S, C, R>, w: World<S, C, R>, t: nat): (r: World<S, C, R>)
    requires t < |w.threads|
  {
    var th := w.threads[t];
    match th.pc
    case Idle =>
      if th.todo == [] then w
      else if !Live(code, w.shared) then w.(threads := w.threads[t := th.(todo := th.todo[1..])])
      else
        var call := th.todo[0];
        (match Early(code, call)
         case None => w.(threads := w.threads[t := th.(pc := Checked)])
         case Some(r) =>
           w.(threads := w.threads[t := Thread(Idle, th.todo[1..], th.results + [r])],
              history := w.history + [Entry(t, call, 0, r)]))
    case Checked =>
      if w.owner != NOBODY then w
      else w.(owner := t, threads := w.threads[t := th.(pc := Holding(0))])
    case Holding(done) =>
      w.(threads := w.threads[t := th.(pc := Copied(done, w.shared))])
    case Copied(done, local) =>
      if th.todo == [] then w
      else
        var call := th.todo[0];
        var p := Part(code, local, call, done);
        (match p.1
         case None => w.(shared := p.0, threads := w.threads[t := th.(pc := Holding(done + 1))])
         case Some(r) =>
           World(p.0, w.owner, w.threads[t := Thread(Worked(r), th.todo[1..], th.results)],
                 w.history + [Entry(t, call, done + 1, r)]))
    case Worked(result) =>
      w.(owner := NOBODY, threads := w.threads[t := Thread(Idle, th.todo, th.results + [result])])
  }

  function Run<S(!new), C(!new), R(!new)>(
    code: Code<S, C, R>, w: World<S, C, R>, schedule: seq<nat>): (w': World<S, C, R>)
    requires forall t <- schedule :: t < |w.threads|
    decreases |schedule|
  {
    if schedule == [] then w
    else
      assert schedule[0] in schedule;
      var w1 := Step(code, w, schedule[0]);
      assert forall t <- schedule[1..] :: t in schedule;
      Run(code, w1, schedule[1..])
  }

  // ----- running the calls one after the other

  /** The first n parts of a call, up to its result. */
  function Parts<S(!new), C(!new), R(!new)>(code: Code<S, C, R>, s: S, c: C, n: nat): (r: (S, Option<R>)) {
    if n == 0 then (s, None)
    else
      var p := Parts(code, s, c, n - 1);
      if p.1.Some? then p else Part(code, p.0, c, n - 1)
  }

  /** A call that runs alone. */
  function Alone<S(!new), C(!new), R(!new)>(code: Code<S, C, R>, s: S, c: C, n: nat): (r: (S, Option<R>)) {
    if Early(code, c).Some? then (s, Early(code, c)) else Parts(code, s, c, n)
  }

  /** The state after the calls of the history, one at a time. */
  function After<S(!new), C(!new), R(!new)>(code: Code<S, C, R>, s: S, history: seq<Entry<C, R>>): (r: S) {
    if history == [] then s
    else
      var e := history[|history| - 1];
      Alone(code, After(code, s, history[..|history| - 1]), e.call, e.parts).0
  }

  /** Each recorded result is what the call gives when the calls run one at a time. */
  ghost predicate Sequential<S(!new), C(!new), R(!new)>(code: Code<S, C, R>, s: S, history: seq<Entry<C, R>>) {
    forall i | 0 <= i < |history| ::
      Alone(code, After(code, s, history[..i]), history[i].call, history[i].parts).1 == Some(history[i].result)
  }

  function CallsOf<C, R>(history: seq<Entry<C, R>>, t: nat): (r: seq<C>) {
    if history == [] then []
    else
      var e := history[|history| - 1];
      CallsOf(history[..|history| - 1], t) + (if e.thread == t then [e.call] else [])
  }

  function ResultsOf<C, R>(history: seq<Entry<C, R>>, t: nat): (r: seq<R>) {
    if history == [] then []
    else
      var e := history[|history| - 1];
      ResultsOf(history[..|history| - 1], t) + (if e.thread == t then [e.result] else [])
  }

  // ----- the invariant

  predicate Critical<S, R>(pc: Pc<S, R>) { pc.Holding? || pc.Copied? || pc.Worked? }

  /** In the middle of its work: the shared state is what its parts so far made of `base`. */
  predicate Midway<S, R>(pc: Pc<S, R>) { pc.Holding? || pc.Copied? }

  ghost predicate ThreadOk<S(!new), C(!new), R(!new)>(
    code: Code<S, C, R>, th: Thread<S, C, R>, shared: S, base: S, t: nat, history: seq<Entry<C, R>>, program: seq<C>)
  {
    && (th.pc.Checked? || Midway(th.pc) ==> th.todo != [] && Early(code, th.todo[0]).None?)
    && (Midway(th.pc) ==> Parts(code, base, th.todo[0], th.pc.done) == (shared, None))
    && (th.pc.Copied? ==> th.pc.local == shared)
    && CallsOf(history, t) + th.todo == program
    && ResultsOf(history, t) == th.results + (if th.pc.Worked? then [th.pc.result] else [])
  }

  /** The lock is held exactly by the thread between its acquire and its release; unless that thread
      is in the middle of its work, the shared state is the state after the history; every thread is
      somewhere in its program. */
  ghost predicate Consistent<S(!new), C(!new), R(!new)>(
    code: Code<S, C, R>, s0: S, programs: seq<seq<C>>, w: World<S, C, R>)
  {
    && |programs| == |w.threads|
    && Live(code, w.shared)
    && (w.owner == NOBODY || 0 <= w.owner < |w.threads|)
    && ((w.owner != NOBODY && Midway(w.threads[w.owner].pc)) || w.shared == After(code, s0, w.history))
    && Sequential(code, s0, w.history)
    && (forall t | 0 <= t < |w.threads| :: Critical(w.threads[t].pc) <==> w.owner == t)
    && (forall t | 0 <= t < |w.threads| ::
          ThreadOk(code, w.threads[t], w.shared, After(code, s0, w.history), t, w.history, programs[t]))
  }

  function Boot<S, C, R>(s0: S, programs: seq<seq<C>>): (r: World<S, C, R>) {
    World(s0, NOBODY, seq(|programs|, t requires 0 <= t < |programs| => Thread(Idle, programs[t], [])), [])
  }

  lemma HistoryGrows<S(!new), C(!new), R(!new)>(code: Code<S, C, R>, s0: S, history: seq<Entry<C, R>>, e: Entry<C, R>)
    requires Sequential(code, s0, history) && Alone(code, After(code, s0, history), e.call, e.parts).1 == Some(e.result)
    ensures After(code, s0, history + [e]) == Alone(code, After(code, s0, history), e.call, e.parts).0
    ensures Sequential(code, s0, history + [e])
    ensures forall t: nat :: CallsOf(history + [e], t) == CallsOf(history, t) + (if e.thread == t then [e.call] else [])
    ensures forall t: nat ::
              ResultsOf(history + [e], t) == ResultsOf(history, t) + (if e.thread == t then [e.result] else [])
  {
    hide Alone;
    var h := history + [e];
    assert h[..|h| - 1] == history;
    forall i | 0 <= i < |h| ensures Alone(code, After(code, s0, h[..i]), h[i].call, h[i].parts).1 == Some(h[i].result) {
      assert h[..i] == history[..i];
    }
  }

  /** A call that gives up before the lock. */
  lemma EarlyKeeps<S(!new), C(!new), R(!new)>(
    code: Code<S, C, R>, s0: S, programs: seq<seq<C>>, w: World<S, C, R>, t: nat)
    requires Consistent(code, s0, programs, w) && t < |w.threads|
    requires w.threads[t].pc.Idle? && w.threads[t].todo != [] && Early(code, w.threads[t].todo[0]).Some?
    ensures Consistent(code, s0, programs, Step(code, w, t))
  {
    hide Live, Early, Part, Parts, After, Sequential, CallsOf, ResultsOf;
    var th, w' := w.threads[t], Step(code, w, t);
    var e := Entry(t, th.todo[0], 0, Early(code, th.todo[0]).value);
    HistoryGrows(code, s0, w.history, e);
    assert w'.history == w.history + [e];
    forall u | 0 <= u < |w.threads|
      ensures ThreadOk(code, w'.threads[u], w'.shared, After(code, s0, w'.history), u, w'.history, programs[u])
    {
      Others(code, w, s0, programs, u);
      assert ThreadOk(code, w.threads[u], w.shared, After(code, s0, w.history), u, w.history, programs[u]);
      if u == t { assert CallsOf(w.history, t) + [th.todo[0]] + th.todo[1..] == programs[t]; }
    }
  }

  lemma Others<S(!new), C(!new), R(!new)>(code: Code<S, C, R>, w: World<S, C, R>, s0: S, programs: seq<seq<C>>, u: nat)
    requires Consistent(code, s0, programs, w) && u < |w.threads|
    ensures CallsOf(w.history, u) + [] == CallsOf(w.history, u)
    ensures ResultsOf(w.history, u) + [] == ResultsOf(w.history, u)
    ensures w.threads[u].results + [] == w.threads[u].results
    ensures !Critical(w.threads[u].pc) || w.owner == u
  {
  }

  /** Only the thread that holds the lock changes the shared state. */
  lemma WorkKeeps<S(!new), C(!new), R(!new)>(
    code: Code<S, C, R>, s0: S, programs: seq<seq<C>>, w: World<S, C, R>, t: nat)
    requires StaysLive(code) && Consistent(code, s0, programs, w)
    requires t < |w.threads| && w.threads[t].pc.Copied?
    ensures Consistent(code, s0, programs, Step(code, w, t))
  {
    hide Live, Early, Part, After, Sequential, CallsOf, ResultsOf;
    var th, w' := w.threads[t], Step(code, w, t);
    var base, done, call := After(code, s0, w.history), th.pc.done, th.todo[0];
    var p := Part(code, w.shared, call, done);
    assert Parts(code, base, call, done + 1) == p;
    if p.1.Some? {
      var e := Entry(t, call, done + 1, p.1.value);
      HistoryGrows(code, s0, w.history, e);
      assert w'.history == w.history + [e];
    }
    forall u | 0 <= u < |w.threads|
      ensures ThreadOk(code, w'.threads[u], w'.shared, After(code, s0, w'.history), u, w'.history, programs[u])
    {
      Others(code, w, s0, programs, u);
      assert ThreadOk(code, w.threads[u], w.shared, base, u, w.history, programs[u]);
      if u == t { assert CallsOf(w.history, t) + [call] + th.todo[1..] == programs[t]; }
    }
  }

  lemma StepKeeps<S(!new), C(!new), R(!new)>(
    code: Code<S, C, R>, s0: S, programs: seq<seq<C>>, w: World<S, C, R>, t: nat)
    requires StaysLive(code) && Consistent(code, s0, programs, w) && t < |w.threads|
    ensures Consistent(code, s0, programs, Step(code, w, t))
  {
    hide Live, Early, Part, After, Sequential, CallsOf, ResultsOf;
    var th, base := w.threads[t], After(code, s0, w.history);
    assert ThreadOk(code, th, w.shared, base, t, w.history, programs[t]);
    if th.pc.Copied? {
      WorkKeeps(code, s0, programs, w, t);
    } else if th.pc.Idle? && th.todo != [] && Early(code, th.todo[0]).Some? {
      EarlyKeeps(code, s0, programs, w, t);
    } else {
      var w' := Step(code, w, t);
      assert th.results + [] == th.results;
      forall u | 0 <= u < |w.threads|
        ensures ThreadOk(code, w'.threads[u], w'.shared, base, u, w'.history, programs[u])
      {
        assert ThreadOk(code, w.threads[u], w.shared, base, u, w.history, programs[u]);
      }
    }
  }

  lemma {:induction false} RunKeeps<S(!new), C(!new), R(!new)>(
    code: Code<S, C, R>, s0: S, programs: seq<seq<C>>, w: World<S, C, R>, schedule: seq<nat>)
    requires StaysLive(code) && Consistent(code, s0, programs, w)
    requires forall t <- schedule :: t < |w.threads|
    ensures Consistent(code, s0, programs, Run(code, w, schedule))
    decreases |schedule|
  {
    if schedule != [] {
      assert schedule[0] in schedule;
      StepKeeps(code, s0, programs, w, schedule[0]);
      assert forall t <- schedule[1..] :: t in schedule;
      RunKeeps(code, s0, programs, Step(code, w, schedule[0]), schedule[1..]);
    }
  }

  /** While a thread has something left to do, some thread has a step to make. */
  lemma NoDeadlock<S(!new), C(!new), R(!new)>(
    code: Code<S, C, R>, s0: S, programs: seq<seq<C>>, w: World<S, C, R>, t: nat)
    requires Consistent(code, s0, programs, w) && t < |w.threads|
    requires !w.threads[t].pc.Idle? || w.threads[t].todo != []
    ensures exists u: nat | u < |w.threads| :: Step(code, w, u) != w
  {
    hide Part, After, Sequential, CallsOf, ResultsOf, Parts;
    var u: nat := if w.owner == NOBODY then t else w.owner;
    var base := After(code, s0, w.history);
    assert ThreadOk(code, w.threads[u], w.shared, base, u, w.history, programs[u]);
    assert Step(code, w, u).threads[u] != w.threads[u];
  }

  // ----- giving the lock back

  /** From part i on, with state s, the call ends within m parts. */
  predicate EndsWithin<S(!new), C(!new), R(!new)>(code: Code<S, C, R>, s: S, c: C, i: nat, m: nat)
    decreases m
  {
    m > 0 && (Part(code, s, c, i).1.Some? || EndsWithin(code, Part(code, s, c, i).0, c, i + 1, m - 1))
  }

  /** In terms of the whole call. */
  lemma {:induction false} EndsIffParts<S(!new), C(!new), R(!new)>(code: Code<S, C, R>, s: S, c: C, n: nat, m: nat)
    requires Parts(code, s, c, n).1.None?
    ensures EndsWithin(code, Parts(code, s, c, n).0, c, n, m) <==> Parts(code, s, c, n + m).1.Some?
    decreases m
  {
    hide Part;
    if m > 0 {
      var s', p := Parts(code, s, c, n).0, Parts(code, s, c, n + 1);
      assert p == Part(code, s', c, n);
      if p.1.Some? {
        EndedStays(code, s, c, n + 1, n + m);
      } else {
        EndsIffParts(code, s, c, n + 1, m - 1);
      }
    }
  }

  lemma {:induction false} EndedStays<S(!new), C(!new), R(!new)>(code: Code<S, C, R>, s: S, c: C, n: nat, m: nat)
    requires n <= m && Parts(code, s, c, n).1.Some?
    ensures Parts(code, s, c, m) == Parts(code, s, c, n)
    decreases m
  {
    if n < m { EndedStays(code, s, c, n, m - 1); }
  }

  /** Thread t holds the lock, and its call ends within m more parts. */
  predicate Ending<S(!new), C(!new), R(!new)>(code: Code<S, C, R>, w: World<S, C, R>, t: nat, m: nat) {
    && t < |w.threads| && w.owner == t
    && (w.threads[t].pc.Worked? ||
        (Midway(w.threads[t].pc) && w.threads[t].todo != [] &&
         EndsWithin(code, w.shared, w.threads[t].todo[0], w.threads[t].pc.done, m)))
  }

  /** Reading and writing for each part, and the release. */
  function StepsLeft<S, R>(pc: Pc<S, R>, m: nat): (k: nat) {
    match pc
    case Holding(_) => 2 * m + 1
    case Copied(_, _) => 2 * m
    case _ => 1
  }

  function StepsOf(schedule: seq<nat>, t: nat): (k: nat) {
    if schedule == [] then 0 else (if schedule[0] == t then 1 else 0) + StepsOf(schedule[1..], t)
  }

  /** Other threads cannot hold up the holder; each of its own steps brings it closer to the release. */
  lemma HolderSteps<S(!new), C(!new), R(!new)>(
    code: Code<S, C, R>, s0: S, programs: seq<seq<C>>, w: World<S, C, R>, t: nat, u: nat, m: nat) returns (m': nat)
    requires Consistent(code, s0, programs, w) && Ending(code, w, t, m) && u < |w.threads|
    ensures var w' := Step(code, w, u);
            if u != t then Ending(code, w', t, m') && StepsLeft(w'.threads[t].pc, m') == StepsLeft(w.threads[t].pc, m)
            else w'.owner == NOBODY ||
                 (Ending(code, w', t, m') && StepsLeft(w'.threads[t].pc, m') < StepsLeft(w.threads[t].pc, m))
  {
    hide Live, Early, Part, Parts, After, Sequential, CallsOf, ResultsOf;
    var th := w.threads[t];
    m' := m;
    assert ThreadOk(code, th, w.shared, After(code, s0, w.history), t, w.history, programs[t]);
    if u != t {
      assert !Critical(w.threads[u].pc);
    } else if th.pc.Copied? && Part(code, w.shared, th.todo[0], th.pc.done).1.None? {
      m' := m - 1;
    }
  }

  /** A holder whose call ends gives the lock back, within so many steps of its own, whatever the others
      do. */
  lemma {:induction false} HolderReleases<S(!new), C(!new), R(!new)>(
    code: Code<S, C, R>, s0: S, programs: seq<seq<C>>, w: World<S, C, R>, t: nat, m: nat, schedule: seq<nat>)
    returns (j: nat)
    requires StaysLive(code) && Consistent(code, s0, programs, w) && Ending(code, w, t, m)
    requires StepsOf(schedule, t) >= StepsLeft(w.threads[t].pc, m)
    requires forall u <- schedule :: u < |w.threads|
    ensures j <= |schedule| && (forall u <- schedule[..j] :: u < |w.threads|)
    ensures Run(code, w, schedule[..j]).owner == NOBODY
    decreases |schedule|
  {
    hide Consistent, Step, Ending, StaysLive;
    EndingLeaves(code, w, t, m);
    var u, rest := schedule[0], schedule[1..];
    assert u in schedule && forall v <- rest :: v in schedule;
    var w' := Step(code, w, u);
    StepKeeps(code, s0, programs, w, u);
    ThreadsStay(code, w, u);
    var m' := HolderSteps(code, s0, programs, w, t, u, m);
    if w'.owner == NOBODY {
      j := 1;
      assert schedule[..1] == [u];
      assert Run(code, w', []) == w';
      assert Run(code, w, schedule[..1]) == w';
    } else {
      var j' := HolderReleases(code, s0, programs, w', t, m', rest);
      j := j' + 1;
      assert schedule[..j][0] == u && schedule[..j][1..] == rest[..j'];
      assert forall v <- schedule[..j] :: v in schedule;
    }
  }

  lemma EndingLeaves<S(!new), C(!new), R(!new)>(code: Code<S, C, R>, w: World<S, C, R>, t: nat, m: nat)
    requires Ending(code, w, t, m)
    ensures t < |w.threads| && w.owner == t && StepsLeft(w.threads[t].pc, m) > 0
  {
  }

  lemma ThreadsStay<S(!new), C(!new), R(!new)>(code: Code<S, C, R>, w: World<S, C, R>, u: nat)
    requires u < |w.threads|
    ensures |Step(code, w, u).threads| == |w.threads|
  {
  }

  /** Thread t holds the lock, and its call never ends. */
  ghost predicate Endless<S(!new), C(!new), R(!new)>(code: Code<S, C, R>, w: World<S, C, R>, t: nat) {
    && t < |w.threads| && w.owner == t && Midway(w.threads[t].pc) && w.threads[t].todo != []
    && forall m: nat :: !EndsWithin(code, w.shared, w.threads[t].todo[0], w.threads[t].pc.done, m)
  }

  lemma EndlessStep<S(!new), C(!new), R(!new)>(
    code: Code<S, C, R>, s0: S, programs: seq<seq<C>>, w: World<S, C, R>, t: nat, u: nat)
    requires Consistent(code, s0, programs, w) && Endless(code, w, t) && u < |w.threads|
    ensures Endless(code, Step(code, w, u), t)
  {
    hide Live, Early, Part, Parts, After, Sequential, CallsOf, ResultsOf;
    var th, w' := w.threads[t], Step(code, w, u);
    assert ThreadOk(code, th, w.shared, After(code, s0, w.history), t, w.history, programs[t]);
    if u != t {
      assert !Critical(w.threads[u].pc);
    } else if th.pc.Copied? {
      var call, done := th.todo[0], th.pc.done;
      var next := done + 1;
      assert !EndsWithin(code, w.shared, call, done, 1);
      assert w'.threads[t].pc == Holding(next) && w'.threads[t].todo == th.todo;
      forall m: nat ensures !EndsWithin(code, w'.shared, call, next, m) {
        assert !EndsWithin(code, w.shared, call, done, m + 1);
      }
    }
  }

  /** A holder whose call never ends keeps the lock for ever. */
  lemma {:induction false} HolderKeeps<S(!new), C(!new), R(!new)>(
    code: Code<S, C, R>, s0: S, programs: seq<seq<C>>, w: World<S, C, R>, t: nat, schedule: seq<nat>)
    requires StaysLive(code) && Consistent(code, s0, programs, w) && Endless(code, w, t)
    requires forall u <- schedule :: u < |w.threads|
    ensures Run(code, w, schedule).owner == t
    decreases |schedule|
  {
    hide Consistent, Step, StaysLive;
    if schedule != [] {
      var u, rest := schedule[0], schedule[1..];
      assert u in schedule && forall v <- rest :: v in schedule;
      StepKeeps(code, s0, programs, w, u);
      ThreadsStay(code, w, u);
      EndlessStep(code, s0, programs, w, t, u);
      HolderKeeps(code, s0, programs, Step(code, w, u), t, rest);
    }
  }

  lemma RunIsConsistent<S(!new), C(!new), R(!new)>(
    code: Code<S, C, R>, s0: S, programs: seq<seq<C>>, schedule: seq<nat>)
    requires StaysLive(code) && Live(code, s0)
    requires forall t <- schedule :: t < |programs|
    ensures Consistent(code, s0, programs, Run(code, Boot(s0, programs), schedule))
  {
    assert Consistent(code, s0, programs, Boot(s0, programs));
    RunKeeps(code, s0, programs, Boot(s0, programs), schedule);
  }

  /** From an initialized state, under every schedule: at most one thread is between acquire and
      release, and exactly then the lock is taken; whenever it is free, the state is that of making
      the finished calls one at a time, in the order in which they finished their work; so are all
      results; and that order has the calls of each thread in program order, with the results that
      the thread got. */
  lemma LockOrderIsSequential<S(!new), C(!new), R(!new)>(
    code: Code<S, C, R>, s0: S, programs: seq<seq<C>>, schedule: seq<nat>)
    requires StaysLive(code) && Live(code, s0)
    requires forall t <- schedule :: t < |programs|
    ensures var w := Run(code, Boot(s0, programs), schedule);
            && |w.threads| == |programs|
            && (forall t | 0 <= t < |programs| :: Critical(w.threads[t].pc) <==> w.owner == t)
            && Live(code, w.shared)
            && (w.owner == NOBODY ==> w.shared == After(code, s0, w.history))
            && Sequential(code, s0, w.history)
            && (forall t | 0 <= t < |programs| ::
                  && CallsOf(w.history, t) + w.threads[t].todo == programs[t]
                  && (w.threads[t].pc.Idle? ==> ResultsOf(w.history, t) == w.threads[t].results))
  {
    RunIsConsistent(code, s0, programs, schedule);
    var w := Run(code, Boot(s0, programs), schedule);
    forall t | 0 <= t < |programs|
      ensures w.threads[t].pc.Idle? ==> ResultsOf(w.history, t) == w.threads[t].results
    {
      assert ThreadOk(code, w.threads[t], w.shared, After(code, s0, w.history), t, w.history, programs[t]);
    }
  }
}
