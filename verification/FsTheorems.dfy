/** What the methods of FsCode come to, for a caller. */
module FsTheorems {
  import opened Sequences
  import opened Inodes
  import opened FsBlocks
  import opened FsCode
  import LogSystem

  /** Which chunks the log can take, by what they may log: all but those that lie in four blocks of
      the file across the place where the indirect block begins, on a disk with four bitmap blocks.
      TightDisk.LogsTen is a disk on which each of the others logs MAXOPBLOCKS blocks. */
  lemma ChunkFitsLog(sb: Super, off: int, n: int)
    requires 0 <= off && 0 <= n <= WRITE_MAX
    ensures WriteBudget(sb, off, n) >= 0
    ensures LogSystem.PanicFree(WriteBudget(sb, off, n)) <==> !Overflows(sb.size, off, n)
  {
    ChunkBudget(sb, off, n);
    LogSystem.ReservationIsTight(WriteBudget(sb, off, n));
  }

  // ---- the return value of writei ----

  /** What writei reports and stores of n bytes at off when `avail` of them can be read and the disk
      has room, which Ends says. */
  function Reported(off: nat, n: nat, avail: nat): (r: nat)
    ensures r <= n
  {
    if avail >= n then n else WholeBlocks(off, avail)
  }

  function Copied(n: nat, avail: nat): nat { if avail >= n then n else avail }

  lemma EndsWithRoom(fs: Fs, i: int, off: nat, n: nat, avail: nat, r: int, copied: int)
    requires GoodDisk(fs.sb, fs.disk) && fs.Ends(i, off, n, avail, r, copied) && 0 <= r <= copied <= n && !Full(fs.sb, fs.disk)
    ensures r == Reported(off, n, avail) && copied == Copied(n, avail)
  {
  }

  /** Whatever the bytes, the file of `size` bytes is left as the return value says. */
  ghost predicate Truthful(size: nat, off: nat, n: nat, avail: nat)
    requires off <= size
  {
    forall c: seq<int>, src: seq<int> :: |c| == size && |src| == n ==>
      Stored(c, off, src, Copied(n, avail), Reported(off, n, avail)) == Patched(c, off, src[..Reported(off, n, avail)])
  }

  lemma AllReported(off: nat, n: nat, avail: nat)
    ensures Reported(off, n, avail) <= Copied(n, avail) <= n
    ensures Copied(n, avail) == Reported(off, n, avail) <==> avail >= n || avail == 0 || (off + avail) % BSIZE == 0
  {
  }

  /** writei's return value describes the file for certain exactly when either_copyin can read all
      the bytes, or none, or stops between two blocks, or the block it stops in begins at or after
      the end of the file. */
  lemma TruthfulWhen(size: nat, off: nat, n: nat, avail: nat)
    requires off <= size
    ensures Truthful(size, off, n, avail) <==>
              avail >= n || avail == 0 || (off + avail) % BSIZE == 0 || off + Reported(off, n, avail) >= size
  {
    var copied, r := Copied(n, avail), Reported(off, n, avail);
    AllReported(off, n, avail);
    hide Reported, Copied;
    if copied == r || off + r >= size {
      forall c: seq<int>, src: seq<int> | |c| == size && |src| == n
        ensures Stored(c, off, src, copied, r) == Patched(c, off, src[..r])
      {
        assert |Stored(c, off, src, copied, r)| == |Patched(c, off, src[..r])|;
      }
    } else {
      var c, src := seq(size, _ => 0), seq(n, _ => 1);
      assert Stored(c, off, src, copied, r)[off + r] == 1 && Patched(c, off, src[..r])[off + r] == 0;
    }
  }
}
