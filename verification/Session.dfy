/** A generator state as its callers see it: whether it is initialized, which process seeded it
    from the operating system, and the machine state (K, BUF). */
module Session {
  import opened Prf
  import opened Machine
  import opened Entropy

  const ERR_LOCK_INIT: int := 0x1
  const ERR_INTERNAL: int := 0x2
  const ERR_STATE_ALIGNMENT: int := 0x6
  const ERR_STATE_INIT: int := 0x1000
  const ERR_FLAG_POSTFORK_RESEED: int := 0x4000

  /** Dead: the magic number does not match. */
  datatype Session<T> = Dead | Live(pid: int, core: State<T>)

  datatype Outcome<T> = Refused(err: int) | Done(out: seq<T>)

  datatype Step<T> = Step(session: Session<T>, outcome: Outcome<T>)

  /** A request for n bytes, or for an integer of k bytes. */
  datatype Op = Bytes(n: nat) | Int(k: nat)

  predicate Supported(op: Op) { op.Int? ==> op.k == 4 || op.k == 8 }

  ghost predicate Sound<T(!new)>(prf: Prf<T>, s: Session<T>) {
    s.Live? ==> Quiet(prf, s.core)
  }

  // ----- seeding

  datatype Seeded<T> = NotSeeded(err: int) | Fresh(core: State<T>)

  function FromDraw<T(!new)>(prf: Prf<T>, draw: Draw<T>): (r: Seeded<T>)
    requires prf.WellFormed()
    ensures r.Fresh? ==> Quiet(prf, r.core)
  {
    match draw
    case NoDraw(err) => NotSeeded(err)
    case Got(b, _) => if |b| < prf.stateBytes then NotSeeded(ERR_ACCESS_STRONG_RNG) else Fresh(Construct(prf, b))
  }

  /** Initialization of an aligned state whose lock and PRF are in order. */
  function Init<T(!new)>(prf: Prf<T>, draw: Draw<T>, pid: int): (r: Step<T>)
    requires prf.WellFormed()
    ensures Sound(prf, r.session)
  {
    match FromDraw(prf, draw)
    case NotSeeded(err) => Step(Dead, Refused(err))
    case Fresh(core) => Step(Live(pid, core), Done([]))
  }

  // ----- requests

  function Perform<T(!new)>(prf: Prf<T>, core: State<T>, op: Op): (r: Reply<T>)
    requires Quiet(prf, core) && Supported(op)
    ensures Quiet(prf, r.state) && |r.out| == (match op case Bytes(n) => n case Int(k) => k)
  {
    match op
    case Bytes(n) => GetBytes(prf, core, n)
    case Int(k) => Tiny(prf, core, k)
  }

  /** The checks before a request: refuse a dead state; reseed a state seeded by another process,
      and refuse if that fails, leaving everything as it was. */
  function Check<T(!new)>(prf: Prf<T>, s: Session<T>, self: int, draw: Draw<T>): (r: Step<T>)
    requires prf.WellFormed() && Sound(prf, s)
    ensures Sound(prf, r.session)
    ensures r.outcome.Refused? ==> r.session == s
    ensures r.outcome.Done? ==> r.session.Live? && r.session.pid == self
  {
    if s.Dead? then Step(s, Refused(ERR_STATE_INIT))
    else if s.pid == self then Step(s, Done([]))
    else
      match FromDraw(prf, draw)
      case NotSeeded(err) => Step(s, Refused(ERR_FLAG_POSTFORK_RESEED + err))
      case Fresh(core) => Step(Live(self, core), Done([]))
  }

  function Rand<T(!new)>(prf: Prf<T>, s: Session<T>, op: Op, self: int, draw: Draw<T>): (r: Step<T>)
    requires prf.WellFormed() && Sound(prf, s) && Supported(op)
    ensures Sound(prf, r.session)
  {
    var c := Check(prf, s, self, draw);
    if c.outcome.Refused? then c
    else
      var r := Perform(prf, c.session.core, op);
      Step(Live(self, r.state), Done(r.out))
  }

  /** Add-seed checks for a dead state but not for a fork; an empty seed asks the operating system. */
  function Seed<T(!new)>(prf: Prf<T>, s: Session<T>, seed: seq<T>, draw: Draw<T>): (r: Step<T>)
    requires prf.WellFormed() && Sound(prf, s)
    ensures Sound(prf, r.session)
  {
    if s.Dead? then Step(s, Refused(ERR_STATE_INIT))
    else if seed != [] then Step(Live(s.pid, AddSeed(prf, s.core.key, seed)), Done([]))
    else
      match draw
      case NoDraw(err) => Step(s, Refused(err))
      case Got(b, _) =>
        if |b| < prf.stateBytes then Step(s, Refused(ERR_ACCESS_STRONG_RNG))
        else Step(Live(s.pid, AddSeed(prf, s.core.key, b)), Done([]))
  }

  /** A start uses every byte of the draw: the first ones are the key, all others are added as a seed. */
  lemma FromDrawUsesAll<T(!new)>(prf: Prf<T>, key: seq<T>, more: seq<T>, flags: Mask)
    requires prf.WellFormed() && |key| == prf.stateBytes
    ensures FromDraw(prf, Got(key + more, flags))
            == Fresh(StirAt(prf, if more == [] then key else AddSeed(prf, key, more).key, 0))
  {
    assert (key + more)[..prf.stateBytes] == key && (key + more)[prf.stateBytes..] == more;
  }

  /** An add-seed without a seed is one with all the bytes that the operating system gives, if these
      are as many as a key has. */
  lemma SeedUsesAll<T(!new)>(prf: Prf<T>, s: Session<T>, bytes: seq<T>, flags: Mask, draw: Draw<T>)
    requires prf.WellFormed() && Sound(prf, s)
    ensures |bytes| >= prf.stateBytes ==> Seed(prf, s, [], Got(bytes, flags)) == Seed(prf, s, bytes, draw)
    ensures |bytes| < prf.stateBytes && s.Live? ==>
              Seed(prf, s, [], Got(bytes, flags)) == Step(s, Refused(ERR_ACCESS_STRONG_RNG))
  {
  }

  lemma ErrorCodes()
    ensures ERR_LOCK_INIT == 1 && ERR_INTERNAL == 2 && ERR_INIT_STRONG_RNG == 3 && ERR_ACCESS_STRONG_RNG == 4
    ensures ERR_STATE_ALIGNMENT == 6
  {
  }

  /** Whatever the checks refuse with is a fatal code, above the low twelve bits: 0x1000 for a dead
      state, and 0x4000 with the code of the entropy failure after a fork.  What an add-seed of a
      live state or an initialization refuses with is not. */
  lemma FatalIff<T(!new)>(prf: Prf<T>, s: Session<T>, op: Op, seed: seq<T>, self: int, draw: Draw<T>)
    requires prf.WellFormed() && Sound(prf, s) && Supported(op)
    requires draw.NoDraw? ==> 0 < draw.err < 0x1000
    ensures var r := Rand(prf, s, op, self, draw);
            r.outcome.Refused? ==>
              r.outcome.err == if s.Dead? then 0x1000 else 0x4000 + (if draw.NoDraw? then draw.err else 4)
    ensures var r := Seed(prf, s, seed, draw);
            r.outcome.Refused? ==> (r.outcome.err / 0x1000 != 0 <==> s.Dead?)
    ensures var r := Init(prf, draw, self);
            r.outcome.Refused? ==> r.outcome.err / 0x1000 == 0
  {
  }
}
