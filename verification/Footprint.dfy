/** How many blocks an operation logs, and what that means for the log. */
module Footprint {
  import opened Collections
  import opened Params
  import opened DiskBlock
  import opened CrashSafety
  import opened FsSpec
  import opened Truncation
  import opened Fs
  import R = Reservation

  /** Free-map blocks that cover the data blocks. */
  function DataMaps(sb: Super): (n: nat)
    requires sb.datastart <= sb.size && 0 < sb.size
  {
    if sb.datastart == sb.size then 0 else (sb.size - 1) / BPB - sb.datastart / BPB + 1
  }

  /** The first of them. */
  function LowMap(sb: Super): (b: nat) { sb.bmapstart + sb.datastart / BPB }

  /** What itrunc logs. */
  ghost function Trunc(owner: Owner, sb: Super, inum: nat): (s: set<nat>) {
    MapBlocks(owner, sb, inum, AllSlots()) + {sb.IBlock(inum)}
  }

  lemma InRange(sb: Super, b: nat)
    requires sb.datastart <= b < sb.size
    ensures R.Inside(sb.BBlock(b), LowMap(sb), LowMap(sb) + DataMaps(sb))
  {
    assert sb.datastart / BPB <= b / BPB <= (sb.size - 1) / BPB;
  }

  /** itrunc logs the inode block and at most one free-map block for each that covers data. */
  lemma TruncBound(d: Disk, sb: Super, t: seq<Inode>, owner: Owner, inum: nat)
    requires Ownership(d, sb, t, owner) && inum < |t|
    ensures 0 < sb.datastart <= sb.size && |Trunc(owner, sb, inum)| <= DataMaps(sb) + 1
  {
    hide Used, Ref, GetWord, Super.BBlock, DataMaps;
    MetaUsed(d, sb, t, owner);
    var all := R.Between(LowMap(sb), LowMap(sb) + DataMaps(sb));
    forall x | x in MapBlocks(owner, sb, inum, AllSlots()) ensures x in all {
      var b :| b in owner && owner[b].0 == inum && owner[b].1 in AllSlots() && sb.BBlock(b) == x;
      InRange(sb, b);
    }
    R.BetweenSize(LowMap(sb), LowMap(sb) + DataMaps(sb));
    SubsetSize(MapBlocks(owner, sb, inum, AllSlots()), all);
    assert |Trunc(owner, sb, inum)| <= |MapBlocks(owner, sb, inum, AllSlots())| + 1;
  }

  /** The first data block covered by the j-th free-map block that covers data. */
  function Pick(sb: Super, j: nat): (b: nat) {
    if j == 0 then sb.datastart else (sb.datastart / BPB + j) * BPB
  }

  lemma PickPlace(sb: Super, j: nat)
    requires 0 < sb.datastart <= sb.size && j < DataMaps(sb)
    ensures sb.datastart <= Pick(sb, j) < sb.size && sb.BBlock(Pick(sb, j)) == LowMap(sb) + j
  {
    if j > 0 { assert (sb.datastart / BPB + j) * BPB <= (sb.size - 1) / BPB * BPB; }
  }

  ghost function Picks(sb: Super, k: nat): (owner: Owner) {
    if k == 0 then map[] else Picks(sb, k - 1)[Pick(sb, k - 1) := (0, k - 1)]
  }

  lemma {:induction false} PicksAre(sb: Super, k: nat)
    requires 0 < sb.datastart <= sb.size && k <= DataMaps(sb)
    ensures forall b :: b in Picks(sb, k) <==> exists j :: 0 <= j < k && Pick(sb, j) == b
    ensures forall j :: 0 <= j < k ==> Pick(sb, j) in Picks(sb, k) && Picks(sb, k)[Pick(sb, j)] == (0, j)
  {
    if k > 0 {
      PicksAre(sb, k - 1);
      forall j | 0 <= j < k - 1 ensures Pick(sb, j) != Pick(sb, k - 1) {
        PickPlace(sb, j);
        PickPlace(sb, k - 1);
      }
    }
  }

  lemma FreeOf(d: Disk, sb: Super, t: seq<Inode>, owner: Owner, b: nat)
    requires Ownership(d, sb, t, owner) && sb.datastart <= b < sb.size && b !in owner
    ensures sb.Ok(d) && !Used(d, sb, b)
  {
  }

  lemma NoRefs(d: Disk, sb: Super, t: seq<Inode>, k: nat)
    requires Ownership(d, sb, t, map[]) && k < |t|
    ensures forall s :: 0 <= s <= NDIRECT ==> t[k].addrs[s] == 0
  {
    forall s | 0 <= s <= NDIRECT ensures t[k].addrs[s] == 0 { AddrRef(d, t[k], s); }
  }

  lemma PickFresh(sb: Super, k: nat)
    requires 0 < sb.datastart <= sb.size && k < DataMaps(sb)
    ensures sb.datastart <= Pick(sb, k) < sb.size && Pick(sb, k) !in Picks(sb, k)
  {
    hide Pick, Picks, DataMaps, Super.BBlock;
    PickPlace(sb, k);
    PicksAre(sb, k);
    forall j | 0 <= j < k ensures Pick(sb, j) != Pick(sb, k) { PickPlace(sb, j); }
  }

  /** From a disk without files: inode 0 with one block under each of k free-map blocks. */
  lemma {:induction false} Spread(d: Disk, sb: Super, t: seq<Inode>, k: nat) returns (e: Disk, u: seq<Inode>)
    requires Ownership(d, sb, t, map[]) && 0 < |t| && k <= NDIRECT && 0 < sb.datastart <= sb.size && k <= DataMaps(sb)
    ensures |u| == |t| && Ownership(e, sb, u, Picks(sb, k)) && forall s :: k <= s <= NDIRECT ==> u[0].addrs[s] == 0
  {
    hide Ownership, Pick, DataMaps, Super.Ok, Used, Ref, SameBytes;
    if k == 0 {
      e, u := d, t;
      NoRefs(d, sb, t, 0);
    } else {
      e, u := Spread(d, sb, t, k - 1);
      var b := Pick(sb, k - 1);
      PickFresh(sb, k - 1);
      FreeOf(e, sb, u, Picks(sb, k - 1), b);
      FillAddr(e, sb, u, Picks(sb, k - 1), 0, k - 1, b);
      MetaUsed(e, sb, u, Picks(sb, k - 1));
      e, u := Allocated(e, sb, b), u[0 := SetAddr(u[0], k - 1, b)];
    }
  }

  lemma PickedMaps(sb: Super, k: nat, x: nat)
    requires 0 < sb.datastart <= sb.size && k <= DataMaps(sb) && k <= NDIRECT && LowMap(sb) <= x < LowMap(sb) + k
    ensures x in MapBlocks(Picks(sb, k), sb, 0, AllSlots())
  {
    hide DataMaps, Pick, Picks, Super.BBlock, LowMap;
    var j := x - LowMap(sb);
    PickPlace(sb, j);
    PicksAre(sb, k);
    assert InSlots(j) && j in AllSlots();
    assert Pick(sb, j) in Picks(sb, k) && sb.BBlock(Pick(sb, j)) == x;
  }

  lemma BelowMaps(d: Disk, sb: Super, t: seq<Inode>, owner: Owner)
    requires Ownership(d, sb, t, owner) && 0 < |t|
    ensures sb.IBlock(0) < LowMap(sb)
  {
    hide Ownership, Super.Ok;
    MetaUsed(d, sb, t, owner);
    InodeLayout(d, sb, 0, 0);
  }

  /** With more than MAXOPBLOCKS - 1 free-map blocks over the data some file's truncation exceeds MAXOPBLOCKS blocks. */
  lemma TruncOverflows(d: Disk, sb: Super, t: seq<Inode>) returns (e: Disk, u: seq<Inode>, owner: Owner)
    requires Ownership(d, sb, t, map[]) && 0 < |t| && 0 < sb.datastart <= sb.size && DataMaps(sb) >= MAXOPBLOCKS
    ensures Ownership(e, sb, u, owner) && 0 < |u| && |Trunc(owner, sb, 0)| > MAXOPBLOCKS
  {
    hide Ownership, DataMaps, Picks, Super.IBlock, LowMap, MapBlocks;
    e, u := Spread(d, sb, t, MAXOPBLOCKS);
    owner := Picks(sb, MAXOPBLOCKS);
    BelowMaps(e, sb, u, owner);
    var lo := LowMap(sb);
    var low := R.Between(lo, lo + MAXOPBLOCKS);
    forall x | x in low ensures x in MapBlocks(owner, sb, 0, AllSlots()) { PickedMaps(sb, MAXOPBLOCKS, x); }
    R.BetweenSize(lo, lo + MAXOPBLOCKS);
    assert sb.IBlock(0) !in low && |low + {sb.IBlock(0)}| == MAXOPBLOCKS + 1;
    SubsetSize(low + {sb.IBlock(0)}, Trunc(owner, sb, 0));
  }

  /** itrunc keeps to MAXOPBLOCKS on every file system with this super block. */
  ghost predicate TruncFits(sb: Super) {
    forall d, t, owner, inum: nat :: Ownership(d, sb, t, owner) && inum < |t| ==>
                                       |Trunc(owner, sb, inum)| <= MAXOPBLOCKS
  }

  /** ... exactly if fewer than MAXOPBLOCKS free-map blocks cover the data. */
  lemma TruncFitsIff(d: Disk, sb: Super, t: seq<Inode>)
    requires Ownership(d, sb, t, map[]) && 0 < |t|
    ensures 0 < sb.datastart <= sb.size && (TruncFits(sb) <==> DataMaps(sb) < MAXOPBLOCKS)
  {
    hide Ownership, DataMaps, Trunc, Super.Ok;
    MetaUsed(d, sb, t, map[]);
    if DataMaps(sb) < MAXOPBLOCKS {
      forall d', t', owner, inum: nat | Ownership(d', sb, t', owner) && inum < |t'|
        ensures |Trunc(owner, sb, inum)| <= MAXOPBLOCKS {
        TruncBound(d', sb, t', owner, inum);
      }
    } else {
      var e, u, owner := TruncOverflows(d, sb, t);
    }
  }

  /** On a disk with one free-map block, as mkfs makes, no interleaving of file writes and truncations meets log_write's
      panic: every transaction keeps to 7 blocks. */
  lemma OneMapNeverPanics(d: Disk, sb: Super, t: seq<Inode>, owner: Owner, inum: nat)
    requires Ownership(d, sb, t, owner) && inum < |t| && sb.size <= BPB
    ensures |Trunc(owner, sb, inum)| <= 7 && !R.CanPanic(LOGSIZE, 7)
  {
    TruncBound(d, sb, t, owner, inum);
    assert DataMaps(sb) <= 1;
    R.PanicIffFullBudget(7);
  }
}
