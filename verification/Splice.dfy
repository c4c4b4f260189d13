/** Writing into buffers. */
module Splice {

  /** `after` is `before` with `bytes` written at `off`. */
  ghost predicate Wrote<T>(before: seq<T>, after: seq<T>, off: nat, bytes: seq<T>) {
    off + |bytes| <= |before| && after == before[..off] + bytes + before[off + |bytes|..]
  }

  lemma WroteNothing<T>(s: seq<T>, off: nat)
    requires off <= |s|
    ensures Wrote(s, s, off, [])
  {
  }

  lemma WroteAll<T>(before: seq<T>, after: seq<T>, bytes: seq<T>)
    requires Wrote(before, after, 0, bytes) && |bytes| == |before|
    ensures after == bytes
  {
  }

  lemma Written<T>(before: seq<T>, after: seq<T>, off: nat, bytes: seq<T>)
    requires Wrote(before, after, off, bytes)
    ensures |after| == |before| && after[off..off + |bytes|] == bytes
  {
  }

  lemma WroteTwice<T>(s0: seq<T>, s1: seq<T>, s2: seq<T>, off: nat, a: seq<T>, b: seq<T>)
    requires Wrote(s0, s1, off, a) && Wrote(s1, s2, off + |a|, b)
    ensures Wrote(s0, s2, off, a + b)
  {
    assert s1[..off + |a|] == s0[..off] + a;
    assert s1[off + |a| + |b|..] == s0[off + |a| + |b|..];
  }
}
