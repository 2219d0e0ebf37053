/** What itrunc's frees add up to: the free map loses exactly one inode's blocks. */
module Truncation {
  import opened DiskBlock
  import opened CrashSafety
  import opened FsSpec

  function Freed(d: Disk, sb: Super, b: nat): (r: Disk)
    requires sb.Ok(d) && b < sb.size && Used(d, sb, b)
    ensures |r| == |d|
  {
    d[sb.BBlock(b) := ClearBit(d[sb.BBlock(b)], b % BPB)]
  }

  lemma FreedBit(d: Disk, sb: Super, b: nat, c: nat)
    requires sb.Ok(d) && b < sb.size && Used(d, sb, b) && c < sb.size
    ensures Used(Freed(d, sb, b), sb, c) == (c != b && Used(d, sb, c))
  {
    hide BitOf, TestBit, ClearBit, Super.BBlock, Super.Ok;
    MapLayout(d, sb, b, c);
    MapLayout(d, sb, c, b);
    LayoutFacts(d, sb, Freed(d, sb, b));
    var m := d[sb.BBlock(b)];
    assert TestBit(ClearBit(m, b % BPB), c % BPB) == (c % BPB != b % BPB && TestBit(m, c % BPB));
  }

  /** d is d0 with the bits of inum's blocks in the done slots cleared. */
  ghost predicate Truncating(d0: Disk, sb: Super, owner: Owner, d: Disk, inum: nat, done: set<nat>) {
    && sb.Ok(d0) && sb.Ok(d) && |d| == |d0|
    && (forall c :: 0 <= c < |d| && !(sb.bmapstart <= c < sb.datastart) ==> d[c] == d0[c])
    && forall b :: 0 <= b < sb.size ==>
         Used(d, sb, b) == (Used(d0, sb, b) && !(b in owner && owner[b].0 == inum && owner[b].1 in done))
  }

  function Emptied(ip: Inode): (r: Inode) { ip.(size := 0, addrs := seq(NDIRECT + 1, _ => 0)) }

  function Disowned(owner: Owner, inum: nat): (r: Owner) {
    map b | b in owner && owner[b].0 != inum :: owner[b]
  }

  lemma AddrRef(d: Disk, ip: Inode, s: nat)
    requires s <= NDIRECT
    ensures Ref(d, ip, s) == ip.addrs[s]
  {
  }

  lemma TruncStart(d: Disk, sb: Super, t: seq<Inode>, owner: Owner, inum: nat)
    requires Ownership(d, sb, t, owner)
    ensures Truncating(d, sb, owner, d, inum, {})
  {
  }

  /** The next slot's block, if it has one, is still marked used, so freeing it succeeds. */
  lemma TruncStep(d0: Disk, sb: Super, t: seq<Inode>, owner: Owner, d: Disk, inum: nat, done: set<nat>, s: nat)
    requires Ownership(d0, sb, t, owner) && inum < |t| && Truncating(d0, sb, owner, d, inum, done)
    requires s < SLOTS && s !in done
    ensures sb.Ok(d)
    ensures var r := Ref(d0, t[inum], s);
            && (r != 0 ==> r < sb.size && Used(d, sb, r))
            && Truncating(d0, sb, owner, if r == 0 then d else Freed(d, sb, r), inum, done + {s})
  {
    hide BitOf, TestBit, ClearBit, GetWord, Super.BBlock, Super.Ok, Used;
    var r := Ref(d0, t[inum], s);
    if r != 0 {
      assert r in owner && owner[r] == (inum, s);
      var e := Freed(d, sb, r);
      LayoutFacts(d, sb, e);
      FreedElsewhere(d, sb, r);
      forall b | 0 <= b < sb.size
        ensures Used(e, sb, b) == (Used(d0, sb, b) && !(b in owner && owner[b].0 == inum && owner[b].1 in done + {s}))
      {
        FreedBit(d, sb, r, b);
      }
    } else {
      NobodyThere(d0, sb, t, owner, inum, s);
    }
  }

  /** An empty slot owns no block. */
  lemma NobodyThere(d: Disk, sb: Super, t: seq<Inode>, owner: Owner, inum: nat, s: nat)
    requires Ownership(d, sb, t, owner) && inum < |t| && s < SLOTS && Ref(d, t[inum], s) == 0
    ensures forall b :: b in owner ==> owner[b] != (inum, s)
  {
  }

  lemma FreedElsewhere(d: Disk, sb: Super, b: nat)
    requires sb.Ok(d) && b < sb.size && Used(d, sb, b)
    ensures forall c :: 0 <= c < |d| && !(sb.bmapstart <= c < sb.datastart) ==> Freed(d, sb, b)[c] == d[c]
  {
    MapLayout(d, sb, b, b);
  }

  /** Entries exist only under an indirect block. */
  lemma TruncNoIndirect(d0: Disk, sb: Super, t: seq<Inode>, owner: Owner, d: Disk, inum: nat, done: set<nat>)
    requires Ownership(d0, sb, t, owner) && inum < |t| && Truncating(d0, sb, owner, d, inum, done)
    requires t[inum].addrs[NDIRECT] == 0 && forall s :: 0 <= s < NDIRECT ==> s in done
    ensures Truncating(d0, sb, owner, d, inum, AllSlots())
  {
    hide Used, GetWord, Super.Ok;
    forall s: nat | NDIRECT <= s < SLOTS ensures forall b :: b in owner ==> owner[b] != (inum, s) {
      NobodyThere(d0, sb, t, owner, inum, s);
    }
  }

  function AllSlots(): (r: set<nat>) { set s: nat | s < SLOTS && InSlots(s) }

  predicate InSlots(s: nat) { s < SLOTS }

  /** When every slot is done, what is left is a consistent file system without inum's blocks. */
  lemma TruncEnd(d0: Disk, sb: Super, t: seq<Inode>, owner: Owner, d: Disk, inum: nat)
    requires Ownership(d0, sb, t, owner) && inum < |t| && Truncating(d0, sb, owner, d, inum, AllSlots())
    ensures Ownership(d, sb, t[inum := Emptied(t[inum])], Disowned(owner, inum))
    ensures forall b :: 0 <= b < sb.size ==> Used(d, sb, b) == (Used(d0, sb, b) && !(b in owner && owner[b].0 == inum))
    ensures forall k, p: nat :: 0 <= k < |t| && k != inum ==> ByteAt(d, t[k], p) == ByteAt(d0, t[k], p)
    ensures forall k, s :: 0 <= k < |t| && k != inum && 0 <= s < SLOTS ==> Ref(d, t[k], s) == Ref(d0, t[k], s)
  {
    hide BitOf, TestBit, GetWord, Super.BBlock, Super.Ok, Used;
    LayoutFacts(d0, sb, d);
    var t' := t[inum := Emptied(t[inum])];
    forall k, s | 0 <= k < |t| && 0 <= s < SLOTS
      ensures Ref(d, t'[k], s) == if k == inum then 0 else Ref(d0, t[k], s)
    {
      if k != inum && t[k].addrs[NDIRECT] != 0 { IndirectOwned(d0, sb, t, owner, k); }
    }
    forall k, p: nat | 0 <= k < |t| && k != inum ensures ByteAt(d, t[k], p) == ByteAt(d0, t[k], p) {
      if p / BSIZE < MAXFILE {
        var r := Ref(d0, t[k], Slot(p / BSIZE));
        assert Ref(d, t'[k], Slot(p / BSIZE)) == r;
        if r != 0 { assert r in owner; }
      }
    }
  }

  // The slots done when itrunc's loops stand at i, or at j

  function DirectSlots(i: nat): (r: set<nat>) { set s: nat | s < i && InSlots(s) }

  function EntrySlots(j: nat): (r: set<nat>) {
    set s: nat | s < NDIRECT + 1 + j && InSlots(s) && s != NDIRECT
  }

  lemma EntryRef(d: Disk, ip: Inode, j: nat)
    requires j < NINDIRECT && 0 < ip.addrs[NDIRECT] < |d|
    ensures Ref(d, ip, NDIRECT + 1 + j) == GetWord(d[ip.addrs[NDIRECT]], j)
  {
  }

  /** Clearing bits does not touch the indirect block being read. */
  lemma EntriesKept(d0: Disk, sb: Super, owner: Owner, d: Disk, inum: nat, done: set<nat>, ind: nat)
    requires Truncating(d0, sb, owner, d, inum, done) && sb.datastart <= ind < sb.size
    ensures ind < |d| == |d0| && d[ind] == d0[ind]
  {
    LayoutFacts(d0, sb, d);
  }

  lemma InodeKeepsBits(d: Disk, sb: Super, t: seq<Inode>, owner: Owner, inum: nat)
    requires Ownership(d, sb, t, owner) && inum < |t|
    ensures sb.Ok(StoredInode(d, sb, inum, t[inum]))
    ensures forall b :: 0 <= b < sb.size ==> Used(StoredInode(d, sb, inum, t[inum]), sb, b) == Used(d, sb, b)
  {
    hide BitOf, TestBit, GetWord, PutWord, PutWords, Super.BBlock, Super.Ok, Super.IBlock;
    LayoutFacts(d, sb, StoredInode(d, sb, inum, t[inum]));
    InodeLayout(d, sb, inum, inum);
    forall b | 0 <= b < sb.size ensures Used(StoredInode(d, sb, inum, t[inum]), sb, b) == Used(d, sb, b) {
      MapLayout(d, sb, b, b);
    }
  }
}
