/** What file_write, dirlink and itrunc log, as operations of the journal. */
module LogShare {
  import opened Limits
  import opened Sets
  import opened Layout
  import opened Redo
  import opened Journal
  import opened JournalBooks
  import opened JournalPanic
  import opened JournalBuffers
  import DirOps
  import FileWrite
  import Fs
  import MkfsMain

  /** An operation of file_write that logs the blocks op, however often and in whatever order, is one
      the journal's runs admit: none of its log_write calls needs more than its share. */
  lemma ChunkIsOperation(c: Config, s: State, p: nat, x: nat, sb: Super, op: set<nat>)
    requires BooksOk(c, s) && p < |s.ops| && s.ops[p].Open? && sb.nblocks <= sb.size && sb.bmapstart <= Meta(sb)
    requires |op| <= FileWrite.Share(sb) <= c.share && s.ops[p].logged + {x} <= op
    requires HeldBy(s, p, x) && !InLog(c.g, x) && x < 0x1_0000_0000
    ensures MayLog(c, s, p, x)
  {
    ShareFits(c, s, p, x, op);
  }

  // The most blocks itrunc logs.
  function TruncShare(sb: Super): nat
    requires sb.nblocks <= sb.size && sb.bmapstart <= Meta(sb)
  {
    Meta(sb) - sb.bmapstart + 1
  }

  /** The blocks that itrunc of inode i gives to log_write: at most one operation's share if the bitmap
      has no more than nine blocks. */
  lemma TruncIsOperation(sb: Super, i: nat, logged: set<nat>)
    requires sb.nblocks <= sb.size && sb.bmapstart <= Meta(sb)
    requires logged <= Fs.BitmapBlocks(sb) + {IBlock(sb, i)}
    ensures |logged| <= TruncShare(sb)
    ensures Meta(sb) - sb.bmapstart <= 9 ==> |logged| <= MAXOPBLOCKS
  {
    Subset(logged, Fs.BitmapBlocks(sb) + {IBlock(sb, i)});
  }

  // No run panics in log_write or outgrows the log, and none in which processes never hold more than h
  // buffers comes to a bread for which there is no buffer.
  ghost predicate Safe(c: Config, h: nat) {
    ConfigOk(c) && !SomePanic(c) && !SomeOverrun(c) && !SomeStuck(c, h) && !SomeStarved(c, h)
  }

  /** With the log mkfs makes, writing files is safe exactly if the bitmap has at most three blocks and
      processes never hold more buffers than the log and the commit leave them. */
  lemma WritesAreSafe(c: Config, sb: Super, h: nat)
    requires sb.nblocks <= sb.size && sb.bmapstart < Meta(sb)
    requires Wide(c) && RecordReaches(c.g) && c.size == LOGSIZE && c.procs >= 2 && c.share == FileWrite.Share(sb)
    requires c.sectors > c.g.cap + 1 + LOGSIZE
    ensures Safe(c, h) <==> Meta(sb) - sb.bmapstart <= 3 && h < 8 - 2 * (Meta(sb) - sb.bmapstart)
  {
    MkfsLog(c, h);
  }

  // Nothing the file system logs is in the log itself.
  lemma OutsideLog(g: Geometry, sb: Super, n: nat, x: nat)
    requires SuperOk(sb, n) && sb.nlog > 0 && g == Geometry(0, sb.logstart, sb.nlog - 1) && x >= sb.inodestart
    ensures !InLog(g, x)
  {
  }

  /** On the image mkfs makes, a write's share is seven blocks, that of dirlink four and that of itrunc
      two; and operations of up to seven are safe exactly as long as processes hold at most five buffers
      at once. */
  lemma MkfsWritesAreSafe(c: Config, h: nat)
    requires c == Config(Geometry(0, MkfsMain.MkfsSuper().logstart, LOGSIZE - 1), LOGSIZE, c.procs, MkfsMain.FSSIZE, 7)
    ensures var sb := MkfsMain.MkfsSuper();
            SuperOk(sb, MkfsMain.FSSIZE) && FileWrite.Share(sb) == c.share && DirOps.LinkShare(sb) == 4 && TruncShare(sb) == 2
    ensures c.procs >= 2 ==> (Safe(c, h) <==> h <= 5)
  {
    MkfsMain.MkfsSuperOk();
    RecordReachesIff(c.g);
    if c.procs >= 2 {
      WritesAreSafe(c, MkfsMain.MkfsSuper(), h);
    }
  }
}
