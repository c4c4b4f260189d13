/** test/test_spec.c: a script of requests and add-seeds on one initialized state. */
module Demo {
  import opened Prf
  import opened Machine
  import E = Entropy
  import opened Range
  import opened Reference
  import opened Ottery

  /** What a command prints: an integer, or bytes. */
  datatype Line = Number(value: nat) | Hex(bytes: seq<byte>) | Nothing

  function Print(c: Command, out: seq<byte>): (r: Line) {
    match c
    case Draw(_) => Number(Value(out))
    case NBytes(_) => Hex(out)
    case AddHexSeed(_) => Nothing
  }

  function PrintAll(cs: seq<Command>, outs: seq<seq<byte>>): (r: seq<Line>)
    requires |outs| == |cs|
    ensures |r| == |cs|
  {
    seq(|cs|, i requires 0 <= i < |cs| => Print(cs[i], outs[i]))
  }

  /** Run one command on the C state, and print its line. */
  method Execute(st: OtteryState, c: Command, self: int, table: seq<E.Source>) returns (line: Line)
    requires st.Valid() && E.Honest(table, st.prf.stateBytes)
    requires st.Abstract().Live? && st.pid == self
    requires c.AddHexSeed? ==> c.seed != []
    modifies st, st.buffer
    ensures st.Valid() && st.prf == old(st.prf) && st.pid == self && st.Abstract().Live?
    ensures var r := StepC(st.prf, old(st.Abstract()).core, c);
            st.Abstract().core == r.state && line == Print(c, r.out)
  {
    match c
    case Draw(wide) =>
      var fatal, value := st.RandInteger(Width(wide), self, table);
      line := Number(value);
    case NBytes(n) =>
      var x := new byte[n];
      var fatal := st.RandBytes(x, n, self, table);
      assert x[..n] == x[..];
      line := Hex(x[..]);
    case AddHexSeed(seed) =>
      var err := st.AddSeedCall(seed, table);
      line := Nothing;
  }

  lemma DemoStep(prf: Prf<byte>, s: State<byte>, done: seq<Command>, c: Command)
    requires Quiet(prf, s)
    ensures |DemoC(prf, s, done)| == |done|
    ensures DemoC(prf, s, done + [c]) == DemoC(prf, s, done) + [StepC(prf, StateAfter(prf, s, done), c).out]
    ensures StateAfter(prf, s, done + [c]) == StepC(prf, StateAfter(prf, s, done), c).state
    decreases |done|
  {
    if done == [] {
      assert (done + [c])[1..] == [];
    } else {
      assert (done + [c])[1..] == done[1..] + [c];
      DemoStep(prf, StepC(prf, s, done[0]).state, done[1..], c);
    }
  }

  function StateAfter(prf: Prf<byte>, s: State<byte>, cs: seq<Command>): (r: State<byte>)
    requires Quiet(prf, s)
    ensures Quiet(prf, r)
    decreases |cs|
  {
    if cs == [] then s else StateAfter(prf, StepC(prf, s, cs[0]).state, cs[1..])
  }

  /** The program: it prints what the reference program prints from the same key, on every script
      on which the reference meets `Roomy`. */
  method RunDemo(st: OtteryState, cs: seq<Command>, self: int, table: seq<E.Source>) returns (lines: seq<Line>)
    requires st.Valid() && E.Honest(table, st.prf.stateBytes)
    requires st.Abstract().Live? && st.pid == self
    requires forall c <- cs :: c.AddHexSeed? ==> c.seed != []
    modifies st, st.buffer
    ensures |DemoC(old(st.prf), old(st.Abstract()).core, cs)| == |cs|
    ensures lines == PrintAll(cs, DemoC(old(st.prf), old(st.Abstract()).core, cs))
    ensures Roomy(old(st.prf), old(st.Abstract()).core, cs) ==>
              |DemoHs(old(st.prf), old(st.Abstract()).core, cs)| == |cs|
              && lines == PrintAll(cs, DemoHs(old(st.prf), old(st.Abstract()).core, cs))
  {
    hide StepC, DemoHs, Roomy;
    ghost var prf, s := st.prf, st.Abstract().core;
    lines := [];
    for i := 0 to |cs|
      invariant st.Valid() && st.prf == prf && st.pid == self && st.Abstract().Live?
      invariant st.Abstract().core == StateAfter(prf, s, cs[..i])
      invariant |DemoC(prf, s, cs[..i])| == i && lines == PrintAll(cs[..i], DemoC(prf, s, cs[..i]))
    {
      assert cs[i] in cs;
      var line := Execute(st, cs[i], self, table);
      assert cs[..i + 1] == cs[..i] + [cs[i]];
      DemoStep(prf, s, cs[..i], cs[i]);
      lines := lines + [line];
    }
    assert cs[..|cs|] == cs;
    if Roomy(prf, s, cs) {
      ScriptsAgree(prf, s, cs);
    }
  }
}
