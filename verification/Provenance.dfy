/** Where every byte comes from.

    The machine of Machine.dfy runs here over symbolic bytes: a byte of a PRF block is the
    term naming the key, the 64-byte ChaCha block and the offset in it; a byte of an entropy
    draw names the process and the draw.  Over any run no term is handed out twice, and no
    term that became part of a key, or was mixed into one, is ever handed out. */
module Provenance {
  import opened Prf
  import opened Machine
  import opened Arithmetic

  datatype Sym =
    | Literal(value: byte)
    | Entropy(owner: int, draw: nat, index: nat)
    | Out(key: seq<Sym>, word: nat, off: nat)
    | Mixed(block: Sym, seed: Sym)

  /** How many bytes one key can make before the 32-bit block counter repeats: 64 * 2^32. */
  const KEYSTREAM: nat := 0x40_0000_0000

  function KeystreamByte(key: seq<Sym>, p: nat): (r: Sym) {
    Out(key, (p / 64) % COUNTER_SPAN, p % 64)
  }

  function SymBlock(ol: nat, key: seq<Sym>, c: nat): (b: seq<Sym>)
    ensures |b| == ol
  {
    seq(ol, i requires 0 <= i < ol => KeystreamByte(key, c * ol + i))
  }

  function SymPrf(sb: nat, ol: nat): (p: Prf<Sym>)
    requires Dimensions(sb, ol) && sb <= MAX_STATE_BYTES && ol <= MAX_OUTPUT_LEN
    ensures p.stateBytes == sb && p.outputLen == ol
    ensures ol >= 64 ==> OverSymbols(p)
  {
    Prf(sb, ol, (k: seq<Sym>, c: nat) => SymBlock(ol, k, c), (b: Sym, s: Sym) => Mixed(b, s))
  }

  // ----- the line of keys

  /** The block byte inside a key byte. */
  function Source(e: Sym): (r: Sym) { if e.Mixed? then e.block else e }

  /** Seed is never mixed into the last byte of a key, so that byte tells from which key it was made. */
  predicate HasParent(key: seq<Sym>) { key != [] && key[|key| - 1].Out? }

  /** A key and all the keys before it. */
  function Line(key: seq<Sym>): (r: seq<seq<Sym>>)
    ensures r != [] && r[0] == key
    decreases key
  {
    [key] + if HasParent(key) then Line(key[|key| - 1].key) else []
  }

  function Epoch(key: seq<Sym>): (r: nat)
    decreases key
  {
    if HasParent(key) then 1 + Epoch(key[|key| - 1].key) else 0
  }

  /** The entropy a key goes back to. */
  function Root(key: seq<Sym>): (r: seq<Sym>)
    decreases key
  {
    if HasParent(key) then Root(key[|key| - 1].key) else key
  }

  /** Where a byte is in the keystream of its key. */
  function Position(e: Sym): (r: nat)
    requires e.Out?
  {
    e.word * 64 + e.off
  }

  lemma PositionOfKeystream(key: seq<Sym>, p: nat)
    requires p < KEYSTREAM
    ensures Position(KeystreamByte(key, p)) == p
  {
    DivMod(p, 64);
    assert p / 64 < COUNTER_SPAN;
  }

  // ----- the invariant

  predicate NoDup(s: seq<Sym>) {
    forall i, j | 0 <= i < j < |s| :: s[i] != s[j]
  }

  /** No byte of `used` is in the key, before mixing. */
  predicate Avoids(used: seq<Sym>, key: seq<Sym>) {
    forall i, e | 0 <= i < |key| && e in used :: Source(key[i]) != e
  }

  /** What is claimed of the bytes handed out and still buffered. */
  ghost predicate Clean(log: seq<Sym>, s: State<Sym>) {
    NoDup(log + s.buf) && forall k <- Line(s.key) :: Avoids(log + s.buf, k)
  }

  /** All bytes made so far under the root of `key` come before position p of its keystream. */
  ghost predicate Before(used: seq<Sym>, key: seq<Sym>, p: nat) {
    forall e <- used :: e.Out? && (Root(e.key) == Root(key) ==> Earlier(e, key, p))
  }

  predicate Earlier(e: Sym, key: seq<Sym>, p: nat)
    requires e.Out?
  {
    Epoch(e.key) < Epoch(key) || (Epoch(e.key) == Epoch(key) && Position(e) < p)
  }

  /** The keys so far were made from blocks of earlier keys. */
  ghost predicate KeyBytesBefore(key: seq<Sym>, line: seq<seq<Sym>>) {
    forall k <- line, i | 0 <= i < |k| && Source(k[i]).Out?  ::
      Epoch(Source(k[i]).key) < Epoch(key) && Root(Source(k[i]).key) == Root(key)
  }

  /** These bytes were made from keys with that root. */
  ghost predicate RootedIn(bytes: seq<Sym>, root: seq<Sym>) {
    forall e <- bytes :: e.Out? && Root(e.key) == root
  }

  /** The invariant, with the next block to be made at position p. */
  ghost predicate Inv(log: seq<Sym>, s: State<Sym>, p: nat) {
    Clean(log, s) && RootedIn(s.buf, Root(s.key)) && Before(log + s.buf, s.key, p) && KeyBytesBefore(s.key, Line(s.key))
  }

  // ----- what one step does to it

  lemma TakeKeeps(log: seq<Sym>, s: State<Sym>, n: nat, p: nat)
    requires Inv(log, s, p) && n <= |s.buf|
    ensures Inv(log + Take(s, n).out, Take(s, n).state, p)
  {
    assert log + s.buf[..n] + s.buf[n..] == log + s.buf;
  }

  lemma DropKeeps(log: seq<Sym>, s: State<Sym>, p: nat)
    requires Inv(log, s, p)
    ensures Inv(log, s.(buf := []), p)
  {
    assert log + [] == log;
    forall e | e in log ensures e in log + s.buf {}
    forall i, j | 0 <= i < j < |log| ensures log[i] != log[j] {
      assert (log + s.buf)[i] == log[i] && (log + s.buf)[j] == log[j];
    }
  }

  /** A block at position p of the keystream. */
  ghost predicate BlockAt(b: seq<Sym>, key: seq<Sym>, p: nat) {
    p + |b| <= KEYSTREAM && forall i | 0 <= i < |b| :: b[i] == KeystreamByte(key, p + i)
  }

  lemma BlockRanks(b: seq<Sym>, key: seq<Sym>, p: nat)
    requires BlockAt(b, key, p)
    ensures forall i | 0 <= i < |b| :: b[i].Out? && b[i].key == key && Position(b[i]) == p + i
    ensures NoDup(b)
  {
    forall i | 0 <= i < |b| ensures Position(b[i]) == p + i {
      PositionOfKeystream(key, p + i);
    }
  }

  /** A new block has no byte in common with what came before it. */
  lemma BlockIsNew(log: seq<Sym>, b: seq<Sym>, key: seq<Sym>, p: nat)
    requires Inv(log, State(key, []), p) && BlockAt(b, key, p)
    ensures forall e <- b :: e !in log
    ensures forall k <- Line(key) :: Avoids(b, k)
  {
    BlockRanks(b, key, p);
    assert log + [] == log;
  }

  lemma NoDupAppend(a: seq<Sym>, b: seq<Sym>)
    requires NoDup(a) && NoDup(b) && forall e <- b :: e !in a
    ensures NoDup(a + b)
  {
    forall i, j | 0 <= i < j < |a + b| ensures (a + b)[i] != (a + b)[j] {
      if i < |a| <= j { assert b[j - |a|] in b; assert a[i] in a; }
    }
  }

  lemma BlockRooted(b: seq<Sym>, key: seq<Sym>, p: nat)
    requires BlockAt(b, key, p)
    ensures RootedIn(b, Root(key))
  {
    BlockRanks(b, key, p);
  }

  /** Handing out a whole block. */
  lemma RawKeeps(log: seq<Sym>, b: seq<Sym>, key: seq<Sym>, p: nat)
    requires Inv(log, State(key, []), p) && BlockAt(b, key, p)
    ensures Inv(log + b, State(key, []), p + |b|)
  {
    BlockRanks(b, key, p);
    BlockIsNew(log, b, key, p);
    assert log + [] == log && log + b + [] == log + b;
    NoDupAppend(log, b);
    forall k | k in Line(key) ensures Avoids(log + b, k) {
      assert Avoids(log + [], k) && Avoids(b, k);
    }
  }

  /** `key'` was made from the start of block b, with or without seed mixed in. */
  ghost predicate MadeFrom(key': seq<Sym>, b: seq<Sym>) {
    && 0 < |key'| <= |b| && key'[|key'| - 1] == b[|key'| - 1]
    && forall i | 0 <= i < |key'| :: Source(key'[i]) == b[i]
  }

  lemma KeyAvoids(log: seq<Sym>, b: seq<Sym>, key': seq<Sym>, buf: seq<Sym>)
    requires MadeFrom(key', b) && NoDup(b) && (buf == [] || buf == b[|key'|..])
    requires forall e <- b :: e !in log
    ensures Avoids(log + buf, key')
  {
    forall i, e | 0 <= i < |key'| && e in log + buf ensures Source(key'[i]) != e {
      assert b[i] in b;
      if e in buf {
        var j :| 0 <= j < |buf| && buf[j] == e;
        assert e == b[|key'| + j];
      }
    }
  }

  lemma ChildKey(key: seq<Sym>, key': seq<Sym>)
    requires HasParent(key') && key'[|key'| - 1].key == key
    ensures Epoch(key') == Epoch(key) + 1 && Line(key') == [key'] + Line(key) && Root(key') == Root(key)
  {
  }

  lemma RekeyBefore(log: seq<Sym>, b: seq<Sym>, key: seq<Sym>, p: nat, key': seq<Sym>, buf: seq<Sym>)
    requires Before(log, key, p) && BlockAt(b, key, p) && MadeFrom(key', b) && (buf == [] || buf == b[|key'|..])
    requires Epoch(key') == Epoch(key) + 1 && Root(key') == Root(key)
    ensures Before(log + buf, key', 0)
  {
    BlockRanks(b, key, p);
    forall e | e in log + buf
      ensures e.Out? && (Root(e.key) == Root(key') ==> Earlier(e, key', 0))
    {
      if e !in log {
        assert e in b;
      }
    }
  }

  lemma RekeyKeyBytes(b: seq<Sym>, key: seq<Sym>, p: nat, key': seq<Sym>)
    requires BlockAt(b, key, p) && MadeFrom(key', b) && KeyBytesBefore(key, Line(key))
    requires Epoch(key') == Epoch(key) + 1 && Line(key') == [key'] + Line(key) && Root(key') == Root(key)
    ensures KeyBytesBefore(key', Line(key'))
  {
    BlockRanks(b, key, p);
    forall k, i | k in Line(key') && 0 <= i < |k| && Source(k[i]).Out?
      ensures Epoch(Source(k[i]).key) < Epoch(key') && Root(Source(k[i]).key) == Root(key')
    {
      if k == key' { assert Source(k[i]) == b[i]; } else { assert k in Line(key); }
    }
  }

  /** Using the start of a block as the new key and keeping the rest as the buffer, or dropping it. */
  lemma RekeyKeeps(log: seq<Sym>, b: seq<Sym>, key: seq<Sym>, p: nat, key': seq<Sym>, buf: seq<Sym>)
    requires Inv(log, State(key, []), p) && BlockAt(b, key, p) && MadeFrom(key', b) && (buf == [] || buf == b[|key'|..])
    ensures Inv(log, State(key', buf), 0) && Root(key') == Root(key)
  {
    hide BlockAt, Before, KeyBytesBefore, Epoch, Root, NoDup, Line, Avoids, MadeFrom;
    BlockRanks(b, key, p);
    BlockIsNew(log, b, key, p);
    assert log + [] == log;
    MadeChild(b, key, p, key');
    RekeyBefore(log, b, key, p, key', buf);
    RekeyKeyBytes(b, key, p, key');
    RekeyBuffer(b, key, p, key', buf);
    NoDupAppend(log, buf);
    forall k | k in Line(key') ensures Avoids(log + buf, k) {
      if k in Line(key) {
        AvoidsBoth(log, b, buf, k);
      } else {
        KeyAvoids(log, b, key', buf);
      }
    }
  }

  lemma MadeChild(b: seq<Sym>, key: seq<Sym>, p: nat, key': seq<Sym>)
    requires BlockAt(b, key, p) && MadeFrom(key', b)
    ensures Epoch(key') == Epoch(key) + 1 && Line(key') == [key'] + Line(key) && Root(key') == Root(key)
  {
    BlockRanks(b, key, p);
    ChildKey(key, key');
  }

  lemma RekeyBuffer(b: seq<Sym>, key: seq<Sym>, p: nat, key': seq<Sym>, buf: seq<Sym>)
    requires BlockAt(b, key, p) && MadeFrom(key', b) && (buf == [] || buf == b[|key'|..])
    ensures NoDup(buf) && RootedIn(buf, Root(key)) && forall e <- buf :: e in b
  {
    BlockRanks(b, key, p);
  }

  lemma AvoidsBoth(log: seq<Sym>, b: seq<Sym>, buf: seq<Sym>, k: seq<Sym>)
    requires Avoids(log, k) && Avoids(b, k) && forall e <- buf :: e in b
    ensures Avoids(log + buf, k)
  {
  }

  // ----- the operations

  /** A PRF whose blocks name their bytes; `SymPrf` is one. */
  ghost predicate OverSymbols(prf: Prf<Sym>) {
    && prf.WellFormed() && prf.outputLen >= 64
    && (forall k: seq<Sym>, c: nat | |k| == prf.stateBytes && c < COUNTER_SPAN ::
          prf.fn(k, c) == SymBlock(prf.outputLen, k, c))
    && (forall b, s :: prf.mix(b, s) == Mixed(b, s))
  }

  lemma CounterFits(c: nat, ol: nat)
    requires ol >= 64 && (c + 1) * ol <= KEYSTREAM
    ensures c < COUNTER_SPAN && c * ol + ol <= KEYSTREAM
  {
    MulOrder(64, ol, c + 1);
    assert (c + 1) * ol == ol * (c + 1) == c * ol + ol;
  }

  lemma BlockIsAt(prf: Prf<Sym>, key: seq<Sym>, c: nat)
    requires OverSymbols(prf) && |key| == prf.stateBytes && (c + 1) * prf.outputLen <= KEYSTREAM
    ensures BlockAt(prf.Block(key, c), key, c * prf.outputLen)
  {
    CounterFits(c, prf.outputLen);
    assert prf.Block(key, c) == SymBlock(prf.outputLen, key, c);
  }

  lemma StirKeeps(prf: Prf<Sym>, log: seq<Sym>, key: seq<Sym>, c: nat)
    requires OverSymbols(prf) && |key| == prf.stateBytes && (c + 1) * prf.outputLen <= KEYSTREAM
    requires Inv(log, State(key, []), c * prf.outputLen)
    ensures var s := StirAt(prf, key, c); Inv(log, s, 0) && Root(s.key) == Root(key)
  {
    hide Inv, BlockAt, SymBlock, Root;
    var b, s := prf.Block(key, c), StirAt(prf, key, c);
    BlockIsAt(prf, key, c);
    BlockRanks(b, key, c * prf.outputLen);
    RekeyKeeps(log, b, key, c * prf.outputLen, s.key, s.buf);
  }

  lemma {:induction false} RawsKeep(prf: Prf<Sym>, log: seq<Sym>, key: seq<Sym>, q: nat)
    requires OverSymbols(prf) && |key| == prf.stateBytes && q * prf.outputLen <= KEYSTREAM
    requires Inv(log, State(key, []), 0)
    ensures Inv(log + Raw(prf, key, q), State(key, []), q * prf.outputLen)
    ensures RootedIn(Raw(prf, key, q), Root(key))
  {
    hide Inv, SymBlock, BlockAt, RootedIn, Root;
    if q == 0 {
      assert log + [] == log;
      RootedNone(Root(key));
    } else {
      var b, p := prf.Block(key, q - 1), (q - 1) * prf.outputLen;
      Multiply(q - 1, prf.outputLen);
      RawsKeep(prf, log, key, q - 1);
      BlockIsAt(prf, key, q - 1);
      BlockRooted(b, key, p);
      RawKeeps(log + Raw(prf, key, q - 1), b, key, p);
      RootedNone(Root(key));
      Rooted3(Raw(prf, key, q - 1), b, [], Root(key));
      assert Raw(prf, key, q - 1) + b + [] == Raw(prf, key, q);
      assert log + Raw(prf, key, q - 1) + b == log + Raw(prf, key, q);
    }
  }

  lemma FromBufKeeps(prf: Prf<Sym>, log: seq<Sym>, s: State<Sym>, n: nat)
    requires OverSymbols(prf) && Quiet(prf, s) && n < |s.buf| + prf.outputLen - prf.stateBytes && Inv(log, s, 0)
    ensures var r := FromBuf(prf, s, n);
            Inv(log + r.out, r.state, 0) && Root(r.state.key) == Root(s.key) && RootedIn(r.out, Root(s.key))
  {
    hide Inv, SymBlock, StirAt;
    BufferRoot(log, s);
    if n < |s.buf| {
      TakeKeeps(log, s, n, 0);
    } else {
      TakeKeeps(log, s, |s.buf|, 0);
      assert s.buf[..|s.buf|] == s.buf && s.buf[|s.buf|..] == [];
      StirKeeps(prf, log + s.buf, s.key, 0);
      var u := StirAt(prf, s.key, 0);
      BufferRoot(log + s.buf, u);
      TakeKeeps(log + s.buf, u, n - |s.buf|, 0);
      assert log + s.buf + u.buf[..n - |s.buf|] == log + (s.buf + u.buf[..n - |s.buf|]);
    }
  }

  lemma TinyKeeps(prf: Prf<Sym>, log: seq<Sym>, s: State<Sym>, k: nat)
    requires OverSymbols(prf) && Quiet(prf, s) && k <= 8 && Inv(log, s, 0)
    ensures var r := Tiny(prf, s, k);
            Inv(log + r.out, r.state, 0) && Root(r.state.key) == Root(s.key) && RootedIn(r.out, Root(s.key))
  {
    if k <= |s.buf| {
      TakeKeeps(log, s, k, 0);
      if k == |s.buf| {
        assert Take(s, k).state == State(s.key, []);
        StirKeeps(prf, log + s.buf[..k], s.key, 0);
      }
    } else {
      DropKeeps(log, s, 0);
      StirKeeps(prf, log, s.key, 0);
      TakeKeeps(log, StirAt(prf, s.key, 0), k, 0);
    }
  }

  /** The keystream of one key is long enough for a request: at most 2^32 ChaCha blocks. */
  predicate Fits(ol: nat, buffered: nat, n: nat)
    requires ol > 0
  {
    n < buffered || ((n - buffered) / ol + 1) * ol <= KEYSTREAM
  }

  lemma LargeKeeps(prf: Prf<Sym>, log: seq<Sym>, s: State<Sym>, q: nat, rest: nat)
    requires OverSymbols(prf) && Quiet(prf, s) && Inv(log, s, 0)
    requires rest < prf.outputLen && (q + 1) * prf.outputLen <= KEYSTREAM
    ensures var r := FromBuf(prf, StirAt(prf, s.key, q), rest);
            var out := s.buf + Raw(prf, s.key, q) + r.out;
            Inv(log + out, r.state, 0) && Root(r.state.key) == Root(s.key) && RootedIn(out, Root(s.key))
  {
    hide Inv, SymBlock, RootedIn;
    BufferRoot(log, s);
    CounterFits(q, prf.outputLen);
    var raw, u := Raw(prf, s.key, q), StirAt(prf, s.key, q);
    var c := FromBuf(prf, u, rest).out;
    TakeKeeps(log, s, |s.buf|, 0);
    assert s.buf[..|s.buf|] == s.buf && s.buf[|s.buf|..] == [];
    RawsKeep(prf, log + s.buf, s.key, q);
    StirKeeps(prf, log + s.buf + raw, s.key, q);
    FromBufKeeps(prf, log + s.buf + raw, u, rest);
    assert log + s.buf + raw + c == log + (s.buf + raw + c);
    Rooted3(s.buf, raw, c, Root(s.key));
  }

  lemma BufferRoot(log: seq<Sym>, s: State<Sym>)
    requires Inv(log, s, 0)
    ensures RootedIn(s.buf, Root(s.key))
  {
  }

  lemma RootedNone(root: seq<Sym>)
    ensures RootedIn([], root)
  {
  }

  lemma Rooted3(a: seq<Sym>, b: seq<Sym>, c: seq<Sym>, root: seq<Sym>)
    requires RootedIn(a, root) && RootedIn(b, root) && RootedIn(c, root)
    ensures RootedIn(a + b + c, root)
  {
  }

  lemma GetBytesKeeps(prf: Prf<Sym>, log: seq<Sym>, s: State<Sym>, n: nat)
    requires OverSymbols(prf) && Quiet(prf, s) && Inv(log, s, 0) && Fits(prf.outputLen, |s.buf|, n)
    ensures var r := GetBytes(prf, s, n);
            Inv(log + r.out, r.state, 0) && Root(r.state.key) == Root(s.key) && RootedIn(r.out, Root(s.key))
  {
    hide Inv, SymBlock, RootedIn, GetBytes, FromBuf, StirAt, Root, Fits, Raw;
    if n < |s.buf| + prf.outputLen - prf.stateBytes - 1 {
      SmallRequest(prf, s, n);
      FromBufKeeps(prf, log, s, n);
    } else {
      var q, rest := Split(n - |s.buf|, prf.outputLen);
      FitsSplit(prf.outputLen, |s.buf|, n, q, rest);
      LargeRequest(prf, s, n, q, rest);
      LargeKeeps(prf, log, s, q, rest);
    }
  }

  lemma FitsSplit(ol: nat, buffered: nat, n: nat, q: nat, rest: nat)
    requires ol > 0 && n >= buffered && n - buffered == q * ol + rest && rest < ol
    ensures Fits(ol, buffered, n) <==> (q + 1) * ol <= KEYSTREAM
  {
    DivUnique(q, ol, rest);
  }

  // ----- beyond the keystream

  /** The byte after the last one of the keystream is the first one again. */
  lemma KeystreamComesRound(prf: Prf<Sym>, key: seq<Sym>, c: nat, j: nat)
    requires OverSymbols(prf) && |key| == prf.stateBytes && j < prf.outputLen
    requires c * prf.outputLen + j == KEYSTREAM
    ensures prf.Block(key, c)[j] == KeystreamByte(key, 0) == prf.Block(key, 0)[0]
  {
    hide KeystreamByte;
    MadeHere(prf, key);
    if c >= COUNTER_SPAN {
      OnlyExactly(c, prf.outputLen, j);
    } else {
      assert prf.Block(key, c) == SymBlock(prf.outputLen, key, c);
    }
    SameByte(key);
  }

  lemma OnlyExactly(c: nat, ol: nat, j: nat)
    requires ol >= 64 && c >= COUNTER_SPAN && c * ol + j == KEYSTREAM
    ensures c == COUNTER_SPAN && j == 0
  {
    MulOrder(64, ol, c);
    assert c * ol == ol * c;
  }

  lemma SameByte(key: seq<Sym>)
    ensures KeystreamByte(key, KEYSTREAM) == KeystreamByte(key, 0)
  {
  }

  lemma Twice(s: seq<Sym>, i: nat, j: nat)
    requires i < j < |s| && s[i] == s[j]
    ensures !NoDup(s)
  {
  }

  /** In the last block of a request, a byte that was handed out before. */
  lemma LastBlockRepeats(prf: Prf<Sym>, s: State<Sym>, q: nat, rest: nat, j: nat)
    requires OverSymbols(prf) && Quiet(prf, s) && q > 0 && rest < prf.outputLen && j < prf.outputLen
    requires prf.Block(s.key, q)[j] == Raw(prf, s.key, q)[0]
    ensures var r := FromBuf(prf, StirAt(prf, s.key, q), rest);
            !Clean(s.buf + Raw(prf, s.key, q) + r.out, r.state)
  {
    hide OverSymbols, SymBlock, Source, NoDup, Line, KeystreamByte, Raw;
    var raw, u := Raw(prf, s.key, q), StirAt(prf, s.key, q);
    var r := FromBuf(prf, u, rest);
    var out := s.buf + raw + r.out;
    assert out[|s.buf|] == raw[0];
    if j < prf.stateBytes {
      assert u.key[j] == raw[0] && raw[0] in out + r.state.buf;
      KeyIsInLine(prf, u, rest);
      NotMixed(prf, s.key, q, j);
      assert Source(u.key[j]) == raw[0];
      assert !Avoids(out + r.state.buf, u.key);
    } else {
      var k := j - prf.stateBytes;
      assert u.buf[k] == raw[0];
      ServedOrKept(prf, u, rest, k);
      assert (out + r.state.buf)[|s.buf| + |raw| + k] == (r.out + r.state.buf)[k];
      Twice(out + r.state.buf, |s.buf|, |s.buf| + |raw| + k);
    }
  }

  /** A byte of the buffer is handed out or stays in the buffer. */
  lemma ServedOrKept(prf: Prf<Sym>, u: State<Sym>, n: nat, k: nat)
    requires Quiet(prf, u) && n < |u.buf| + prf.outputLen - prf.stateBytes && k < |u.buf|
    ensures var r := FromBuf(prf, u, n); k < |r.out + r.state.buf| && (r.out + r.state.buf)[k] == u.buf[k]
  {
    if n < |u.buf| { assert FromBuf(prf, u, n).out + FromBuf(prf, u, n).state.buf == u.buf; }
  }

  lemma NotMixed(prf: Prf<Sym>, key: seq<Sym>, q: nat, j: nat)
    requires OverSymbols(prf) && |key| == prf.stateBytes && j < prf.outputLen
    ensures Source(prf.Block(key, q)[j]) == prf.Block(key, q)[j]
  {
    assert prf.Block(key, q) == SymBlock(prf.outputLen, key, q % COUNTER_SPAN);
    assert prf.Block(key, q)[j] == KeystreamByte(key, (q % COUNTER_SPAN) * prf.outputLen + j);
  }

  lemma KeyIsInLine(prf: Prf<Sym>, u: State<Sym>, rest: nat)
    requires OverSymbols(prf) && Quiet(prf, u) && rest < |u.buf| + prf.outputLen - prf.stateBytes
    ensures u.key in Line(FromBuf(prf, u, rest).state.key)
  {
    hide Line;
    MadeHere(prf, u.key);
    FirstInLine(u.key);
    if rest >= |u.buf| {
      var k := StirAt(prf, u.key, 0).key;
      assert k[|k| - 1] == KeystreamByte(u.key, |k| - 1);
      ChildKey(u.key, k);
    }
  }

  lemma FirstInLine(key: seq<Sym>)
    ensures key in Line(key)
  {
    assert Line(key)[0] == key;
  }

  /** In an earlier block of a request, a byte that was handed out before. */
  lemma EarlierBlockRepeats(prf: Prf<Sym>, s: State<Sym>, q: nat, c: nat, j: nat, last: Reply<Sym>)
    requires OverSymbols(prf) && Quiet(prf, s) && 0 < c < q && j < prf.outputLen
    requires prf.Block(s.key, c)[j] == prf.Block(s.key, 0)[0]
    ensures !Clean(s.buf + Raw(prf, s.key, q) + last.out, last.state)
  {
    hide OverSymbols, NoDup, Line, Raw;
    var raw, at := Raw(prf, s.key, q), c * prf.outputLen + j;
    Multiply(c, prf.outputLen);
    RawAt(prf, s.key, q, 0, 0);
    RawAt(prf, s.key, q, c, j);
    var bytes := s.buf + raw + last.out + last.state.buf;
    assert bytes[|s.buf|] == raw[0] && bytes[|s.buf| + at] == raw[at];
    Twice(bytes, |s.buf|, |s.buf| + at);
  }

  /** Where the keystream of a key comes round, in a request that needs that much of it. */
  lemma ComesRound(ol: nat, buffered: nat, n: nat, q: nat, rest: nat) returns (c: nat, j: nat)
    requires 64 <= ol <= MAX_OUTPUT_LEN && n >= buffered && n - buffered == q * ol + rest && rest < ol
    requires !Fits(ol, buffered, n)
    ensures 0 < c <= q && c * ol + j == KEYSTREAM && j < ol
  {
    hide Fits;
    FitsSplit(ol, buffered, n, q, rest);
    c, j := Split(KEYSTREAM, ol);
    if c > q { MulOrder(q + 1, c, ol); }
  }

  /** A request that needs more than 2^32 ChaCha blocks of one key hands out a byte twice, or hands
      out a key byte, or keeps a byte to hand it out again: the bound of `Fits` is exact. */
  lemma BeyondTheKeystream(prf: Prf<Sym>, s: State<Sym>, n: nat)
    requires OverSymbols(prf) && Quiet(prf, s) && !Fits(prf.outputLen, |s.buf|, n)
    ensures var r := GetBytes(prf, s, n); !Clean(r.out, r.state)
  {
    hide Clean, GetBytes, FromBuf, Raw, StirAt, SymBlock, KeystreamByte;
    NotSmall(prf, s, n);
    var q, rest := Split(n - |s.buf|, prf.outputLen);
    var c, j := ComesRound(prf.outputLen, |s.buf|, n, q, rest);
    LargeRequest(prf, s, n, q, rest);
    KeystreamComesRound(prf, s.key, c, j);
    if c == q {
      RawAt(prf, s.key, q, 0, 0);
      LastBlockRepeats(prf, s, q, rest, j);
    } else {
      EarlierBlockRepeats(prf, s, q, c, j, FromBuf(prf, StirAt(prf, s.key, q), rest));
    }
  }

  /** From any state of a run: a request leaves everything clean if and only if it fits. */
  lemma CleanIffItFits(prf: Prf<Sym>, log: seq<Sym>, s: State<Sym>, n: nat)
    requires OverSymbols(prf) && Quiet(prf, s) && Inv(log, s, 0)
    ensures var r := GetBytes(prf, s, n);
            Clean(log + r.out, r.state) <==> Fits(prf.outputLen, |s.buf|, n)
  {
    hide GetBytes, Clean, Fits, SymBlock, OverSymbols;
    var r := GetBytes(prf, s, n);
    if Fits(prf.outputLen, |s.buf|, n) {
      GetBytesKeeps(prf, log, s, n);
    } else {
      BeyondTheKeystream(prf, s, n);
      if Clean(log + r.out, r.state) { CleanWithout(log, r.out, r.state); }
    }
  }

  lemma CleanWithout(log: seq<Sym>, out: seq<Sym>, s: State<Sym>)
    requires Clean(log + out, s)
    ensures Clean(out, s)
  {
    hide Line, Source;
    var all, part := log + out + s.buf, out + s.buf;
    assert all == log + part;
    forall i, j | 0 <= i < j < |part| ensures part[i] != part[j] {
      assert all[|log| + i] == part[i] && all[|log| + j] == part[j];
    }
    forall k | k in Line(s.key) ensures Avoids(part, k) {
      assert Avoids(all, k);
      assert forall e <- part :: e in all;
    }
  }

  lemma NotSmall(prf: Prf<Sym>, s: State<Sym>, n: nat)
    requires Quiet(prf, s) && !Fits(prf.outputLen, |s.buf|, n)
    ensures n >= |s.buf| + prf.outputLen - prf.stateBytes - 1
  {
    if |s.buf| <= n < |s.buf| + prf.outputLen {
      DivUnique(0, prf.outputLen, n - |s.buf|);
    }
  }

  lemma {:induction false} SeedKeyKeeps(prf: Prf<Sym>, log: seq<Sym>, key: seq<Sym>, seed: seq<Sym>)
    requires OverSymbols(prf) && |key| == prf.stateBytes && Inv(log, State(key, []), 0)
    ensures var k := SeedKey(prf, key, seed); Inv(log, State(k, []), 0) && Root(k) == Root(key)
    decreases |seed|
  {
    if seed != [] {
      var m := if |seed| > prf.stateBytes / 2 then prf.stateBytes / 2 else |seed|;
      var b, key' := prf.Block(key, 0), MixKey(prf, key, seed[..m]);
      BlockIsAt(prf, key, 0);
      BlockRanks(b, key, 0);
      RekeyKeeps(log, b, key, 0, key', []);
      SeedKeyKeeps(prf, log, key', seed[m..]);
    }
  }

  lemma AddSeedKeeps(prf: Prf<Sym>, log: seq<Sym>, s: State<Sym>, seed: seq<Sym>)
    requires OverSymbols(prf) && Quiet(prf, s) && Inv(log, s, 0)
    ensures var t := AddSeed(prf, s.key, seed); Inv(log, t, 0) && Root(t.key) == Root(s.key)
  {
    DropKeeps(log, s, 0);
    SeedKeyKeeps(prf, log, s.key, seed);
    StirKeeps(prf, log, SeedKey(prf, s.key, seed), 0);
  }

  lemma MadeHere(prf: Prf<Sym>, key: seq<Sym>)
    requires OverSymbols(prf) && |key| == prf.stateBytes
    ensures forall i | 0 <= i < prf.outputLen :: prf.Block(key, 0)[i] == KeystreamByte(key, i)
  {
    assert prf.Block(key, 0) == SymBlock(prf.outputLen, key, 0);
  }

  /** Add-seed keeps the root of a key, whatever has been handed out. */
  lemma {:induction false} SeedKeepsRoot(prf: Prf<Sym>, key: seq<Sym>, seed: seq<Sym>)
    requires OverSymbols(prf) && |key| == prf.stateBytes
    ensures Root(SeedKey(prf, key, seed)) == Root(key)
    ensures Root(AddSeed(prf, key, seed).key) == Root(key)
    decreases |seed|
  {
    if seed != [] {
      var m := if |seed| > prf.stateBytes / 2 then prf.stateBytes / 2 else |seed|;
      MadeHere(prf, key);
      assert MixKey(prf, key, seed[..m])[prf.stateBytes - 1] == prf.Block(key, 0)[prf.stateBytes - 1];
      ChildKey(key, MixKey(prf, key, seed[..m]));
      SeedKeepsRoot(prf, MixKey(prf, key, seed[..m]), seed[m..]);
    }
    var k := SeedKey(prf, key, seed);
    MadeHere(prf, k);
    ChildKey(k, StirAt(prf, k, 0).key);
  }

  /** Bytes handed out elsewhere, under another root, do not disturb a state. */
  lemma OthersKeep(log: seq<Sym>, out: seq<Sym>, s: State<Sym>, root: seq<Sym>)
    requires Inv(log, s, 0) && RootedIn(out, root) && root != Root(s.key) && NoDup(log + out)
    ensures Inv(log + out, s, 0)
  {
    var used := log + out;
    forall i, j | 0 <= i < j < |s.buf| ensures s.buf[i] != s.buf[j] {
      assert (log + s.buf)[|log| + i] == s.buf[i] && (log + s.buf)[|log| + j] == s.buf[j];
    }
    forall e | e in s.buf ensures e !in used {
      var j :| 0 <= j < |s.buf| && s.buf[j] == e;
      forall i | 0 <= i < |log| ensures log[i] != e {
        assert (log + s.buf)[i] != (log + s.buf)[|log| + j];
      }
    }
    NoDupAppend(used, s.buf);
    forall k | k in Line(s.key) ensures Avoids(used + s.buf, k) {
      forall i, e | 0 <= i < |k| && e in used + s.buf ensures Source(k[i]) != e {
        if e !in out { assert e in log + s.buf; }
      }
    }
  }

  // ----- a fresh start

  /** The bytes of an entropy draw. */
  function EntropyBytes(owner: int, draw: nat, n: nat): (r: seq<Sym>)
    ensures |r| == n
  {
    seq(n, i requires 0 <= i < n => Entropy(owner, draw, i))
  }

  /** A key that is entropy, before anything is made from it. */
  lemma EntropyKeyStarts(log: seq<Sym>, key: seq<Sym>)
    requires key != [] && (forall e <- key :: e.Entropy?) && NoDup(log)
    requires forall e <- log :: e.Out? && Root(e.key) != key
    ensures Inv(log, State(key, []), 0) && Root(key) == key
  {
    assert key[|key| - 1] in key;
    assert log + [] == log && Line(key) == [key] && Root(key) == key;
    assert forall i | 0 <= i < |key| :: key[i] in key;
  }

  /** Starting from a draw that no byte handed out so far goes back to. */
  lemma ConstructStarts(prf: Prf<Sym>, log: seq<Sym>, entropy: seq<Sym>)
    requires OverSymbols(prf) && |entropy| >= prf.stateBytes
    requires forall e <- entropy :: e.Entropy?
    requires NoDup(log) && forall e <- log :: e.Out? && Root(e.key) != entropy[..prf.stateBytes]
    ensures var s := Construct(prf, entropy); Inv(log, s, 0) && Root(s.key) == entropy[..prf.stateBytes]
  {
    hide Inv, SymBlock, Root, NoDup, StirAt, SeedKey;
    var key, rest := entropy[..prf.stateBytes], entropy[prf.stateBytes..];
    assert forall i | 0 <= i < |key| :: key[i] in entropy;
    EntropyKeyStarts(log, key);
    if rest == [] {
      StirKeeps(prf, log, key, 0);
    } else {
      SeedKeyKeeps(prf, log, key, rest);
      StirKeeps(prf, log, SeedKey(prf, key, rest), 0);
      var t := AddSeed(prf, key, rest);
      DropKeeps(log, t, 0);
      StirKeeps(prf, log, t.key, 0);
    }
  }
}
