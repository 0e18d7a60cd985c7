/** Sequences without repeats, and overwriting part of a sequence: what a write does to the
    contents of a file. */
module Sequences {

  ghost predicate Distinct<T>(s: seq<T>) {
    forall i, j :: 0 <= i < j < |s| ==> s[i] != s[j]
  }

  /** c after w has been written at off, within c or at its end. */
  function Patched<T>(c: seq<T>, off: nat, w: seq<T>): (c': seq<T>)
    requires off <= |c|
    ensures |c'| == if off + |w| > |c| then off + |w| else |c|
    ensures forall k :: 0 <= k < |c'| ==> c'[k] == if off <= k < off + |w| then w[k - off] else c[k]
  {
    c[..off] + w + if off + |w| < |c| then c[off + |w|..] else []
  }

  /** What was written is what is read back. */
  lemma PatchedSlice<T>(c: seq<T>, off: nat, w: seq<T>)
    requires off <= |c|
    ensures Patched(c, off, w)[off..off + |w|] == w
  {
    assert |Patched(c, off, w)[off..off + |w|]| == |w|;
  }

  /** Two writes end to end are one write. */
  lemma PatchedTwice<T>(c: seq<T>, off: nat, v: seq<T>, w: seq<T>)
    requires off <= |c|
    ensures Patched(Patched(c, off, v), off + |v|, w) == Patched(c, off, v + w)
  {
    assert |Patched(Patched(c, off, v), off + |v|, w)| == |Patched(c, off, v + w)|;
  }
}
