/** Block allocation and file contents: the parts of fs.c that work inside a transaction.
    view is what bread returns for each block (see BufferCache and Log); a modified buffer
    that is passed to log_write updates it and joins the set of logged blocks. */
module Fs {
  import opened Collections
  import opened Params
  import opened DiskBlock
  import opened CrashSafety
  import opened FsSpec
  import opened Truncation

  /** References only appear, and only in inode inum; its other fields stay. */
  ghost predicate Grows(d: Disk, table: seq<Inode>, e: Disk, table': seq<Inode>, inum: nat) {
    && |table'| == |table| && inum < |table|
    && (forall k :: 0 <= k < |table| && k != inum ==> table'[k] == table[k])
    && table'[inum].kind == table[inum].kind && table'[inum].links == table[inum].links &&
       table'[inum].size == table[inum].size
    && (forall k, s :: 0 <= k < |table| && 0 <= s < SLOTS && Ref(d, table[k], s) != 0 ==>
                         Ref(e, table'[k], s) == Ref(d, table[k], s))
  }

  /** The inodes on disk are those of the table. */
  ghost predicate Matches(d: Disk, sb: Super, t: seq<Inode>) {
    sb.Ok(d) && |t| == sb.ninodes && forall k :: 0 <= k < |t| ==> GetInode(d, sb, k) == t[k]
  }

  /** The free map has lost exactly inum's blocks, and no other file reads differently. */
  ghost predicate Released(d: Disk, owner: Owner, t: seq<Inode>, e: Disk, t': seq<Inode>, sb: Super, inum: nat) {
    && sb.Ok(d) && sb.Ok(e) && |t| == |t'|
    && (forall b :: 0 <= b < sb.size ==>
          Used(e, sb, b) == (Used(d, sb, b) && !(b in owner && owner[b].0 == inum)))
    && forall k, p: nat :: 0 <= k < |t'| && k != inum ==> ByteAt(e, t'[k], p) == ByteAt(d, t'[k], p)
  }

  class FileSystem {
    const sb: Super
    var view: Disk
    var inode: seq<Inode>
    ghost var owner: Owner
    var logged: set<nat>       // blocks passed to log_write in this transaction
    ghost var maps: set<nat>   // the free-map blocks among them that the current operation passed
    var home: Disk             // the home blocks on disk: what the last commit left
    ghost var leaked: set<nat> // data blocks a failed copy changed without logging them

    ghost predicate Valid()
      reads this
    {
      Ownership(view, sb, inode, owner) && InMaps(maps, sb)
    }

    /** Every inode on disk is the inode in memory. */
    ghost predicate Synced()
      reads this
    {
      Matches(view, sb, inode)
    }

    /** Every block that differs from the disk has been passed to log_write, and none of them lies before the inode
        blocks. */
    ghost predicate Logs()
      reads this`view, this`home, this`logged
    {
      Changed(home, view, logged, sb)
    }

    /** The same but for leaked blocks, which hold file data or nothing. */
    ghost predicate Settled()
      reads this`view, this`home, this`logged, this`leaked, this`owner
    {
      Changed(home, view, logged + leaked, sb) && Harmless(leaked, owner, sb)
    }

    ghost predicate Whole()
      reads this
    {
      Valid() && forall k :: 0 <= k < |inode| ==> NoHoles(view, inode[k], inode[k].size)
    }

    constructor (s: Super, d: Disk, table: seq<Inode>, ghost o: Owner)
      requires Ownership(d, s, table, o)
      ensures Valid() && Settled() && sb == s && view == home == d && inode == table && owner == o
      ensures logged == {} && maps == {} && leaked == {}
    {
      sb, view, inode, owner, logged, maps, home, leaked := s, d, table, o, {}, {}, d, {};
    }

    /** balloc and bzero: the lowest free block, zeroed. Fails, where the kernel panics, only
        when every block is used. */
    method Balloc() returns (b: nat, ok: bool)
      requires sb.Ok(view) && forall c :: 0 <= c < sb.datastart ==> Used(view, sb, c)
      modifies this`view, this`logged, this`maps, this`leaked
      ensures ok <==> exists c :: 0 <= c < sb.size && !Used(old(view), sb, c)
      ensures ok ==> sb.datastart <= b < sb.size && !Used(old(view), sb, b) &&
                     forall c :: 0 <= c < b ==> Used(old(view), sb, c)
      ensures ok ==> view == Allocated(old(view), sb, b)
      ensures ok ==> logged == old(logged) + {sb.BBlock(b), b} && maps == old(maps) + {sb.BBlock(b)}
      ensures !ok ==> view == old(view) && logged == old(logged) && maps == old(maps)
      ensures !ok ==> AllUsed(view, sb)
      ensures ok ==> leaked == old(leaked) - {b}
      ensures !ok ==> leaked == old(leaked)
      ensures old(Settled()) ==> Settled()
      ensures InMaps(old(maps), sb) ==> InMaps(maps, sb)
    {
      hide BitOf, TestBit, SetBit, Super.BBlock, Super.Ok, Changed;
      ghost var d0 := view;
      var base := 0;
      while base < sb.size
        invariant base % BPB == 0 && view == old(view) && logged == old(logged) && maps == old(maps) &&
                  leaked == old(leaked)
        invariant forall c :: 0 <= c < base && c < sb.size ==> Used(view, sb, c)
      {
        var bi := ScanMap(base);
        if bi < BPB && base + bi < sb.size {
          BitPlace(sb, base, bi);
          MapLayout(view, sb, base, base);
          b := base + bi;
          assert !Used(d0, sb, b) && b >= sb.datastart;
          view := view[sb.BBlock(base) := SetBit(view[sb.BBlock(base)], bi)];
          view := view[b := Zeroes()];
          logged := logged + {sb.BBlock(b), b};
          maps := maps + {sb.BBlock(b)};
          leaked := leaked - {b};
          LoggedTwo(home, d0, view, old(logged + leaked), sb, b);
          assert logged + leaked == old(logged + leaked) + {sb.BBlock(b), b};
          MapBlock(sb, b);
          return b, true;
        }
        base := base + BPB;
      }
      return 0, false;
    }

    /** balloc's inner loop: the first clear bit of the map block of base. */
    method ScanMap(base: nat) returns (bi: nat)
      requires sb.Ok(view) && base % BPB == 0 && base < sb.size
      ensures bi <= BPB && base + bi <= sb.size
      ensures forall c :: base <= c < base + bi ==> Used(view, sb, c)
      ensures bi < BPB && base + bi < sb.size ==> !Used(view, sb, base + bi)
    {
      hide BitOf, TestBit, Super.BBlock, Super.Ok;
      MapLayout(view, sb, base, base);
      bi := 0;
      while bi < BPB && base + bi < sb.size
        invariant 0 <= bi <= BPB && base + bi <= sb.size
        invariant forall c :: base <= c < base + bi ==> Used(view, sb, c)
      {
        BitPlace(sb, base, bi);
        if !TestBit(view[sb.BBlock(base)], bi) {
          return;
        }
        bi := bi + 1;
      }
    }

    /** bfree: false is the "freeing free block" panic. */
    method Bfree(b: nat) returns (ok: bool)
      requires sb.Ok(view) && b < sb.size
      modifies this`view, this`logged, this`maps
      ensures ok == Used(old(view), sb, b)
      ensures ok ==> view == Freed(old(view), sb, b)
      ensures !ok ==> view == old(view)
      ensures ok ==> logged == old(logged) + {sb.BBlock(b)} && maps == old(maps) + {sb.BBlock(b)}
      ensures !ok ==> logged == old(logged) && maps == old(maps)
      ensures old(Settled()) ==> Settled()
      ensures InMaps(old(maps), sb) ==> InMaps(maps, sb)
    {
      hide Changed, TestBit, ClearBit;
      var m := view[sb.BBlock(b)];
      if !TestBit(m, b % BPB) {
        return false;
      }
      view := view[sb.BBlock(b) := ClearBit(m, b % BPB)];
      logged := logged + {sb.BBlock(b)};
      maps := maps + {sb.BBlock(b)};
      LoggedOne(home, old(view), view, old(logged + leaked), sb, sb.BBlock(b));
      assert logged + leaked == old(logged + leaked) + {sb.BBlock(b)};
      MapBlock(sb, b);
      return true;
    }

    /** addrs[slot] = balloc(). */
    method AllocAddr(inum: nat, slot: nat) returns (b: nat, ok: bool)
      requires Valid() && inum < |inode| && slot <= NDIRECT && inode[inum].addrs[slot] == 0
      modifies this`view, this`inode, this`owner, this`logged, this`maps, this`leaked
      ensures ok ==> Valid() && Grows(old(view), old(inode), view, inode, inum) &&
                     SameBytes(old(view), old(inode), view, inode)
      ensures ok ==> SameLow(old(view), view, sb)
      ensures ok ==> b != 0 && inode[inum].addrs[slot] == b
      ensures ok ==> forall s :: 0 <= s < SLOTS && s != slot ==>
                                   Ref(view, inode[inum], s) == Ref(old(view), old(inode)[inum], s)
      ensures ok ==> logged == old(logged) + {sb.BBlock(b), b} && maps == old(maps) + {sb.BBlock(b)}
      ensures !ok ==> AllUsed(view, sb)
      ensures ok ==> b !in leaked && forall x :: x in logged ==> x in old(logged) || x == b || x < sb.datastart
      ensures !ok ==> view == old(view)
      ensures leaked <= old(leaked) && (old(Settled()) ==> Settled())
    {
      hide RefsOwned, OwnedUsed, BitOf, TestBit, GetWord, PutWord, Super.Ok, Super.BBlock, ByteAt, Changed;
      MetaUsed(view, sb, inode, owner);
      b, ok := Balloc();
      if ok {
        FillAddr(old(view), sb, inode, owner, inum, slot, b);
        AllocatedLow(old(view), sb, b);
        inode := inode[inum := SetAddr(inode[inum], slot, b)];
        owner := owner[b := (inum, slot)];
      }
    }

    /** a[j] = balloc(), in the indirect block. */
    method AllocEntry(inum: nat, j: nat) returns (b: nat, ok: bool)
      requires Valid() && inum < |inode| && j < NINDIRECT && inode[inum].addrs[NDIRECT] != 0
      requires Ref(view, inode[inum], NDIRECT + 1 + j) == 0
      modifies this`view, this`inode, this`owner, this`logged, this`maps, this`leaked
      ensures ok ==> Valid() && Grows(old(view), old(inode), view, inode, inum) &&
                     SameBytes(old(view), old(inode), view, inode)
      ensures ok ==> SameLow(old(view), view, sb)
      ensures ok ==> b != 0 && inode == old(inode) && Ref(view, inode[inum], NDIRECT + 1 + j) == b
      ensures ok ==> logged == old(logged) + {sb.BBlock(b), b, inode[inum].addrs[NDIRECT]} &&
                     maps == old(maps) + {sb.BBlock(b)}
      ensures !ok ==> AllUsed(view, sb)
      ensures ok ==> forall s :: 0 <= s < SLOTS && s != NDIRECT + 1 + j ==>
                                   Ref(view, inode[inum], s) == Ref(old(view), old(inode)[inum], s)
      ensures ok ==> b !in leaked
      ensures ok ==> forall x :: x in logged ==>
                                   x in old(logged) || x == b || x == inode[inum].addrs[NDIRECT] || x < sb.datastart
      ensures leaked <= old(leaked) && (old(Settled()) ==> Settled())
    {
      hide RefsOwned, OwnedUsed, BitOf, TestBit, GetWord, PutWord, Super.Ok, Super.BBlock, ByteAt, Changed;
      MetaUsed(view, sb, inode, owner);
      b, ok := Balloc();
      if ok {
        FillEntry(old(view), sb, inode, owner, inum, j, b);
        AllocatedLow(old(view), sb, b);
        IndirectOwned(old(view), sb, inode, owner, inum);
        var ind := inode[inum].addrs[NDIRECT];
        ghost var d1, l1 := view, logged;
        view := view[ind := PutWord(view[ind], j, b)];
        logged := logged + {ind};
        LoggedOne(home, d1, view, l1 + leaked, sb, ind);
        assert logged + leaked == l1 + leaked + {ind};
        owner := owner[b := (inum, NDIRECT + 1 + j)];
      }
    }

    /** bmap: the block of file block bn, allocated if missing, and the indirect block with it.
        Files read the same before and after. */
    method Bmap(inum: nat, bn: nat) returns (addr: nat, ok: bool)
      requires Valid() && inum < |inode| && bn < MAXFILE
      modifies this`view, this`inode, this`owner, this`logged, this`maps, this`leaked
      ensures ok ==> Valid() && Grows(old(view), old(inode), view, inode, inum) &&
                     SameBytes(old(view), old(inode), view, inode)
      ensures ok ==> SameLow(old(view), view, sb)
      ensures ok ==> addr != 0 && addr == Ref(view, inode[inum], Slot(bn))
      ensures Ref(old(view), old(inode)[inum], Slot(bn)) != 0 ==>
                ok && view == old(view) && inode == old(inode) && owner == old(owner) && logged == old(logged) &&
                maps == old(maps)
      ensures ok ==> logged <= old(logged) + {addr} + Indirect(inode[inum]) + maps
      ensures ok ==> old(maps) <= maps && |maps| <= |old(maps)| + Fresh(old(view), old(inode)[inum], bn)
      ensures !ok ==> AllUsed(view, sb)
      ensures bn < NDIRECT && !ok ==> view == old(view)
      ensures ok ==> forall s :: 0 <= s < SLOTS && s != Slot(bn) && s != NDIRECT ==>
                Ref(view, inode[inum], s) == Ref(old(view), old(inode)[inum], s)
      ensures ok ==> forall x :: x in logged ==>
                                   x in old(logged) || x == addr || x in Indirect(inode[inum]) || x < sb.datastart
      ensures ok && Ref(old(view), old(inode)[inum], Slot(bn)) == 0 ==> addr in logged && addr !in leaked
      ensures Ref(old(view), old(inode)[inum], Slot(bn)) != 0 ==> leaked == old(leaked)
      ensures leaked <= old(leaked) && (old(Settled()) ==> Settled())
    {
      hide RefsOwned, OwnedUsed, GetWord, PutWord, Super.Ok, Super.BBlock, ByteAt, Changed;
      if bn < NDIRECT {
        addr, ok := inode[inum].addrs[bn], true;
        if addr == 0 {
          addr, ok := AllocAddr(inum, bn);
        }
        return;
      }
      var j := bn - NDIRECT;
      if inode[inum].addrs[NDIRECT] == 0 {
        var ind;
        ind, ok := AllocAddr(inum, NDIRECT);
        if !ok { return 0, false; }
      }
      IndirectOwned(view, sb, inode, owner, inum);
      ghost var d1, t1 := view, inode;
      addr, ok := GetWord(view[inode[inum].addrs[NDIRECT]], j), true;
      if addr == 0 {
        addr, ok := AllocEntry(inum, j);
        if ok { GrowsOn(old(view), old(inode), d1, t1, view, inode, inum); }
      }
    }

    /** iupdate: the inode block on disk gets the inode, the other inodes in it stay. */
    method Iupdate(inum: nat)
      requires Valid() && inum < |inode|
      modifies this`view, this`logged
      ensures Valid() && view == StoredInode(old(view), sb, inum, inode[inum])
      ensures SameBytes(old(view), inode, view, inode)
      ensures forall k, s :: 0 <= k < |inode| && 0 <= s < SLOTS ==>
                               Ref(view, inode[k], s) == Ref(old(view), inode[k], s)
      ensures logged == old(logged) + {sb.IBlock(inum)}
      ensures old(Settled()) ==> Settled()
    {
      hide Changed, BitOf, TestBit, GetWord, PutWord, PutWords, RefsOwned, OwnedUsed;
      InodeLayout(view, sb, inum, inum);
      var b := PutWords(view[sb.IBlock(inum)], IPB * (inum % IPB), InodeWords(inode[inum]));
      InodeBlockSeparate(view, sb, inode, owner, inum, b);
      view := view[sb.IBlock(inum) := b];
      logged := logged + {sb.IBlock(inum)};
      LoggedOne(home, old(view), view, old(logged + leaked), sb, sb.IBlock(inum));
      assert logged + leaked == old(logged + leaked) + {sb.IBlock(inum)};
    }

    /** One turn of writei's loop: bytes go to position pos, within one block. A failed copy
        leaves the bytes it did copy in the buffer and skips log_write. */
    method WriteChunk(inum: nat, pos: nat, bytes: seq<Byte>, copied: bool) returns (ok: bool)
      requires Valid() && inum < |inode| && pos / BSIZE < MAXFILE && pos % BSIZE + |bytes| <= BSIZE
      modifies this`view, this`inode, this`owner, this`logged, this`maps, this`leaked
      ensures ok ==> Valid() && Grows(old(view), old(inode), view, inode, inum)
      ensures ok ==> SameLow(old(view), view, sb)
      ensures ok ==> Ref(view, inode[inum], Slot(pos / BSIZE)) != 0
      ensures ok ==> Patched(old(view), old(inode), view, inode, inum, pos, bytes)
      ensures ok ==> logged <= old(logged) + {Ref(view, inode[inum], Slot(pos / BSIZE))} + Indirect(inode[inum]) + maps
      ensures ok ==> old(maps) <= maps && |maps| <= |old(maps)| + Fresh(old(view), old(inode)[inum], pos / BSIZE)
      ensures !ok ==> AllUsed(view, sb) && Ref(old(view), old(inode)[inum], Slot(pos / BSIZE)) == 0
      ensures ok ==> Lone(old(view), old(inode), old(logged), view, inode, logged, sb, inum, pos / BSIZE)
      ensures ok && (copied || Ref(old(view), old(inode)[inum], Slot(pos / BSIZE)) == 0) ==> leaked <= old(leaked)
      ensures ok && !copied && Ref(old(view), old(inode)[inum], Slot(pos / BSIZE)) != 0 ==>
                logged == old(logged) && leaked <= old(leaked) + {Ref(old(view), old(inode)[inum], Slot(pos / BSIZE))}
      ensures old(Settled()) ==> Settled()
    {
      hide Ownership, Ref, ByteAt, Patched, Grows, SameBytes, SameLow, Indirect, Fresh, GetWord, PutWord, Super.Ok,
           Changed, AllUsed;
      var addr;
      addr, ok := Bmap(inum, pos / BSIZE);
      if ok {
        ghost var d1, l1, k1 := view, logged, leaked;
        SpliceStored(old(view), old(inode), view, sb, inode, owner, inum, pos, bytes);
        AddrOwned(view, sb, inode, owner, inum, pos / BSIZE);
        view := view[addr := Splice(view[addr], pos % BSIZE, bytes)];
        LoggedOne(home, d1, view, l1 + k1, sb, addr);
        if copied {
          logged := logged + {addr};
        } else if addr !in logged {
          leaked := leaked + {addr};
        }
        assert logged + leaked == l1 + k1 + {addr};
      }
    }

    /** writei of src at offset off. Only the first `good` bytes of src can be copied in; a copy
        that fails has already put `leak` of its bytes in the buffer. */
    method Writei(inum: nat, off: nat, src: seq<Byte>, good: nat, leak: nat)
      returns (r: int, ok: bool, ghost spill: nat)
      requires Whole() && inum < |inode| && off < 0x1_0000_0000 && |src| < 0x1_0000_0000
      modifies this`view, this`inode, this`owner, this`logged, this`maps, this`leaked
      ensures Rejected(old(inode)[inum], off, |src|) ==>
                ok && r == -1 && view == old(view) && inode == old(inode) && logged == old(logged) &&
                leaked == old(leaked)
      ensures ok ==> Whole()
      ensures !ok ==> AllUsed(view, sb) && !AllThere(old(view), old(inode)[inum], off, |src|)
      ensures ok && !Rejected(old(inode)[inum], off, |src|) ==>
                && r == Reach(off, good, |src|) && spill == Spill(off, good, leak, |src|)
                && Patched(old(view), old(inode), view, inode, inum, off, src[..r + spill])
                && inode[inum].size == Max(old(inode)[inum].size, off + r)
                && (forall k :: 0 <= k < |inode| && k != inum ==> inode[k] == old(inode)[k])
                && GetInode(view, sb, inum) == inode[inum]
      ensures ok && old(Synced()) ==> Synced()
      ensures ok && old(maps) == {} && |src| <= 3 * BSIZE ==>
                |logged| <= |old(logged)| + MAXOPBLOCKS && (sb.size <= BPB ==> |logged| <= |old(logged)| + 7)
      ensures ok && good >= |src| ==> leaked <= old(leaked)
      ensures old(Settled()) ==> Settled()
      ensures ok && old(Settled()) && old(logged) == {} && old(leaked) == {} ==>
                (Logs() <==> Covered(old(view), old(inode)[inum], off, src, good, leak))
    {
      hide InMaps, Harmless, SameLow, Reach, Spill, Ownership, Patched, SameBytes, NoHoles, ByteAt, Ref, Indirect,
           GetInode, Changed, Covered, Stopped, AllUsed, AllThere, Matches, SameRefs;
      ok, spill := true, 0;
      var n := |src|;
      if off > inode[inum].size || (off + n) % 0x1_0000_0000 < off {
        RejectedCovered(view, inode[inum], off, src, good, leak, logged, leaked);
        return -1, true, 0;
      }
      if (off + n) % 0x1_0000_0000 > MAXFILE * BSIZE {
        RejectedCovered(view, inode[inum], off, src, good, leak, logged, leaked);
        return -1, true, 0;
      }
      ghost var s0 := Snap(view, inode, logged, maps);
      ghost var data: set<nat>;
      var tot;
      tot, ok, spill, data := WriteLoop(inum, off, src, good, leak);
      if !ok {
        return -1, false, 0;
      }
      ghost var s1 := Snap(view, inode, logged, maps);
      EndWrite(inum, off, tot, s0, src[..tot + spill], data);
      if sb.size <= BPB { OneMap(maps, sb); }
      ReachBounds(off, good, leak, n);
      if old(Settled()) && s0.logged == {} && old(leaked) == {} {
        WroteLogs(home, s0, s1, Snap(view, inode, logged, maps), old(owner), sb, inum, off, src, good, leak,
                  old(leaked), leaked);
      }
      r := tot;
    }

    /** The end of writei, seen from its start s0. */
    method EndWrite(inum: nat, off: nat, tot: nat, ghost s0: Snap, ghost bytes: seq<Byte>, ghost data: set<nat>)
      requires Valid() && inum < |inode| && off + tot <= MAXFILE * BSIZE
      requires Grows(s0.d, s0.t, view, inode, inum) && Patched(s0.d, s0.t, view, inode, inum, off, bytes)
      requires forall k :: 0 <= k < |s0.t| ==> NoHoles(s0.d, s0.t[k], s0.t[k].size)
      requires NoHoles(view, inode[inum], Max(inode[inum].size, off + tot)) && SameLow(s0.d, view, sb)
      requires logged <= s0.logged + data + Indirect(inode[inum]) + maps
      modifies this`view, this`inode, this`owner, this`logged, this`maps
      ensures Whole() && |inode| == |old(inode)| && maps == old(maps) && owner == old(owner)
      ensures Patched(s0.d, s0.t, view, inode, inum, off, bytes) && SameRefs(old(view), old(inode), view, inode)
      ensures inode[inum].size == Max(s0.t[inum].size, off + tot) && GetInode(view, sb, inum) == inode[inum]
      ensures forall k :: 0 <= k < |inode| && k != inum ==> inode[k] == s0.t[k]
      ensures Matches(s0.d, sb, s0.t) ==> Synced()
      ensures logged == old(logged) + {sb.IBlock(inum)} && |logged| <= |s0.logged| + |data| + |maps| + 2
      ensures old(Settled()) ==> Settled()
    {
      hide InMaps, Harmless, SameLow, Ownership, Patched, SameBytes, NoHoles, ByteAt, Ref, Indirect, GetInode, Changed,
           Matches;
      ghost var s1 := Snap(view, inode, logged, maps);
      FinishWrite(inum, off + tot);
      WriteDone(s0, s1, Snap(view, inode, logged, maps), inum, off, tot, bytes, data, sb.IBlock(inum));
      if Matches(s0.d, sb, s0.t) { SyncedAfter(s0.d, s1.d, sb, s0.t, inode, inum); }
    }

    /** The new size, and iupdate. */
    method FinishWrite(inum: nat, end: nat)
      requires Valid() && inum < |inode| && end <= MAXFILE * BSIZE
      modifies this`view, this`inode, this`owner, this`logged, this`maps
      ensures Valid() && inode == old(inode)[inum := old(inode)[inum].(size := Max(old(inode)[inum].size, end))]
      ensures SameBytes(old(view), old(inode), view, inode)
      ensures forall k, s :: 0 <= k < |inode| && 0 <= s < SLOTS ==>
                               Ref(view, inode[k], s) == Ref(old(view), old(inode)[k], s)
      ensures GetInode(view, sb, inum) == inode[inum]
      ensures sb.Ok(old(view)) && inum < sb.ninodes && view == StoredInode(old(view), sb, inum, inode[inum])
      ensures logged == old(logged) + {sb.IBlock(inum)} && maps == old(maps)
      ensures old(Settled()) ==> Settled()
      ensures owner == old(owner)
    {
      hide Changed, RefsOwned, OwnedUsed, ByteAt, GetWord, PutWord, PutWords, Super.BBlock, Super.IBlock;
      Resized(view, sb, inode, owner, inum, Max(inode[inum].size, end));
      if end > inode[inum].size {
        inode := inode[inum := inode[inum].(size := end)];
      }
      assert inode == old(inode)[inum := old(inode)[inum].(size := Max(old(inode)[inum].size, end))];
      InodeRoundTrip(view, sb, inum, inode[inum], inum);
      Iupdate(inum);
    }

    /** writei's loop. data are the file's own blocks it touched. */
    method WriteLoop(inum: nat, off: nat, src: seq<Byte>, good: nat, leak: nat)
      returns (tot: nat, ok: bool, ghost spill: nat, ghost data: set<nat>)
      requires Whole() && inum < |inode| && !Rejected(inode[inum], off, |src|)
      modifies this`view, this`inode, this`owner, this`logged, this`maps, this`leaked
      ensures ok ==> tot == Reach(off, good, |src|) && spill == Spill(off, good, leak, |src|) && tot + spill <= |src|
      ensures !ok ==> AllUsed(view, sb) && !AllThere(old(view), old(inode)[inum], off, |src|)
      ensures ok ==> Valid() && Grows(old(view), old(inode), view, inode, inum)
      ensures ok ==> SameLow(old(view), view, sb)
      ensures ok ==> Patched(old(view), old(inode), view, inode, inum, off, src[..tot + spill])
      ensures ok ==> NoHoles(view, inode[inum], Max(inode[inum].size, off + tot))
      ensures ok ==> logged <= old(logged) + data + Indirect(inode[inum]) + maps
      ensures ok && old(maps) == {} && |src| <= 3 * BSIZE ==> |data| <= 4 && |data| + |maps| <= 8
      ensures ok && good >= |src| ==> leaked <= old(leaked)
      ensures ok && good < |src| ==> Stopped(old(view), old(inode)[inum], old(logged), old(leaked), logged, leaked,
                                             off, good, |src|)
      ensures old(Settled()) ==> Settled()
    {
      hide Grows, InMaps, Harmless, Reach, Spill, Ownership, Progress, Patched, NoHoles, ByteAt, Ref, Fresh, Indirect,
           Changed, Lone, Ahead, Stopped, AllUsed, AllThere, Cursor, SameLow;
      ghost var s0 := Snap(view, inode, logged, maps);
      var n := |src|;
      var failed := false;
      ghost var c := 0;
      tot, ok, spill, data := 0, true, 0, {};
      ProgressStart(s0, inum, off, src);
      AheadStart(s0, inum, off / BSIZE);
      SameLowSelf(view, sb);
      while tot < n && !failed
        invariant tot + spill <= n && tot <= good && (tot == n ==> !failed)
        invariant !failed ==> spill == 0 && leaked <= old(leaked) &&
                              Ahead(s0, Snap(view, inode, logged, maps), inum, off / BSIZE + c)
        invariant failed ==> good < n && tot == Reach(off, good, n) && spill == Spill(off, good, leak, n)
        invariant failed ==> Stopped(s0.d, s0.t[inum], s0.logged, old(leaked), logged, leaked, off, good, n)
        invariant ok && Valid() && SameLow(s0.d, view, sb) && (old(Settled()) ==> Settled())
        invariant Progress(s0, Snap(view, inode, logged, maps), inum, off, src, tot, spill, c, failed, data)
        decreases n - tot, !failed
      {
        var m := if n - tot < BSIZE - (off + tot) % BSIZE then n - tot else BSIZE - (off + tot) % BSIZE;
        var copied := tot + m <= good;
        var k := if copied then m else if leak < m then leak else m - 1;
        ghost var s1, k1 := Snap(view, inode, logged, maps), leaked;
        Here(s0, s1, inum, off, src, tot, c, data, m);
        ok := WriteChunk(inum, off + tot, src[tot..tot + k], copied);
        if !ok {
          Missing(s0, s1, inum, off, n, tot, c);
          return tot, false, 0, {};
        }
        ghost var s2 := Snap(view, inode, logged, maps);
        ProgressStep(s0, s1, s2, inum, off, src, tot, c, data, m, k, copied);
        ghost var now := data + {Ref(view, inode[inum], Slot((off + tot) / BSIZE))};
        SameLowOn(s0.d, s1.d, view, sb);
        if copied {
          AheadStep(s0, s1, s2, sb, owner, inum, off / BSIZE + c);
          tot := tot + m;
        } else {
          StopsHere(s0, s1, s2, inum, off, src, good, leak, tot, c, data, m, k, old(leaked), k1, leaked);
          failed, spill := true, k;
        }
        data := now;
        c := c + 1;
      }
      ReachAll(off, good, leak, n);
      ProgressEnd(s0, Snap(view, inode, logged, maps), inum, off, src, tot, spill, c, failed, data);
    }

    /** readi of n bytes at offset off, clipped at the size; only the first `good` bytes can be
        copied out. Allocates nothing, because files have no holes. */
    method Readi(inum: nat, off: nat, n: nat, good: nat) returns (r: int, out: seq<Byte>)
      requires Whole() && inum < |inode| && off < 0x1_0000_0000 && n < 0x1_0000_0000
      modifies this`view, this`inode, this`owner, this`logged, this`maps, this`leaked
      ensures Whole() && view == old(view) && inode == old(inode) && logged == old(logged) && leaked == old(leaked) &&
              owner == old(owner)
      ensures off > inode[inum].size || off + n >= 0x1_0000_0000 ==> r == 0 && out == []
      ensures off <= inode[inum].size && off + n < 0x1_0000_0000 ==>
                var len := Min(n, inode[inum].size - off);
                && (r == len || r == -1) && (r == -1 <==> good < len)
                && (r == len ==> out == Contents(view, inode[inum])[off..off + len])
    {
      hide Ownership, NoHoles, Contents, Ref, ByteAt;
      if off > inode[inum].size || (off + n) % 0x1_0000_0000 < off {
        return 0, [];
      }
      var len := n;
      if (off + n) % 0x1_0000_0000 > inode[inum].size {
        len := inode[inum].size - off;
      }
      assert len == Min(n, inode[inum].size - off);
      r, out := ReadLoop(inum, off, len, good);
    }

    method ReadLoop(inum: nat, off: nat, len: nat, good: nat) returns (r: int, out: seq<Byte>)
      requires Whole() && inum < |inode| && off + len <= inode[inum].size
      modifies this`view, this`inode, this`owner, this`logged, this`maps, this`leaked
      ensures Whole() && view == old(view) && inode == old(inode) && logged == old(logged) && leaked == old(leaked) &&
              owner == old(owner)
      ensures (r == len || r == -1) && (r == -1 <==> good < len)
      ensures r == len ==> out == Contents(view, inode[inum])[off..off + len]
    {
      hide Ownership, NoHoles, Contents, Ref, ByteAt;
      ghost var s := Contents(view, inode[inum]);
      var tot := 0;
      out := [];
      while tot < len
        invariant 0 <= tot <= len && tot <= good && Whole() && view == old(view) && inode == old(inode) &&
                  logged == old(logged) && leaked == old(leaked) && owner == old(owner)
        invariant out == s[off..off + tot]
      {
        var m := if len - tot < BSIZE - (off + tot) % BSIZE then len - tot else BSIZE - (off + tot) % BSIZE;
        var bytes := ReadChunk(inum, off + tot, m);
        if tot + m > good {
          return -1, out;
        }
        Append(s, off, tot, m);
        out := out + bytes;
        tot := tot + m;
      }
      r := tot;
    }

    /** One turn of readi's loop: the m bytes at pos, within one block. */
    method ReadChunk(inum: nat, pos: nat, m: nat) returns (bytes: seq<Byte>)
      requires Whole() && inum < |inode| && 0 < m && pos % BSIZE + m <= BSIZE && pos + m <= inode[inum].size
      modifies this`view, this`inode, this`owner, this`logged, this`maps, this`leaked
      ensures Whole() && view == old(view) && inode == old(inode) && logged == old(logged) && leaked == old(leaked) &&
              owner == old(owner)
      ensures bytes == Contents(view, inode[inum])[pos..pos + m]
    {
      hide Ownership, NoHoles, Contents, Ref, ByteAt;
      ReadHere(view, sb, inode, owner, inum, pos);
      var addr, ok := Bmap(inum, pos / BSIZE);
      ReadBlock(view, inode[inum], addr, pos, m);
      bytes := view[addr][pos % BSIZE..pos % BSIZE + m];
    }

    /** itrunc: frees exactly the blocks of inode inum. The "freeing free block" panic cannot
        happen: ok is always true. */
    method Itrunc(inum: nat) returns (ok: bool)
      requires Valid() && inum < |inode|
      modifies this`view, this`inode, this`owner, this`logged, this`maps
      ensures ok && Valid()
      ensures inode == old(inode)[inum := Emptied(old(inode)[inum])]
      ensures owner == Disowned(old(owner), inum)
      ensures Released(old(view), old(owner), old(inode), view, inode, sb, inum)
      ensures GetInode(view, sb, inum) == inode[inum]
      ensures old(Synced()) ==> Synced()
      ensures old(Whole()) ==> Whole()
      ensures logged == old(logged) + MapBlocks(old(owner), sb, inum, AllSlots()) + {sb.IBlock(inum)}
      ensures old(Settled()) ==> Settled()
    {
      hide MapBlocks, InMaps, Harmless, Changed, Ownership, ByteAt, Ref, Truncating, Used, Freed, GetInode,
           Super.IBlock;
      ghost var d0, t0 := view, inode;
      TruncStart(d0, sb, t0, owner, inum);
      ok := FreeDirect(inum);
      AddrRef(d0, t0[inum], NDIRECT);
      if inode[inum].addrs[NDIRECT] != 0 {
        ok := FreeIndirect(inum, d0, t0, old(logged));
        inode := inode[inum := SetAddr(inode[inum], NDIRECT, 0)];
      } else {
        TruncNoIndirect(d0, sb, t0, owner, view, inum, DirectSlots(NDIRECT));
        MapBlocksNone(d0, sb, t0, owner, inum);
      }
      inode := inode[inum := inode[inum].(size := 0)];
      assert inode[inum].addrs == Emptied(t0[inum]).addrs;
      assert inode == t0[inum := Emptied(t0[inum])];
      FinishTrunc(inum, d0, t0);
    }

    /** The end of itrunc: the emptied inode, and iupdate. */
    method FinishTrunc(inum: nat, ghost d0: Disk, ghost t0: seq<Inode>)
      requires Ownership(d0, sb, t0, owner) && inum < |t0| && inode == t0[inum := Emptied(t0[inum])] && InMaps(maps, sb)
      requires Truncating(d0, sb, owner, view, inum, AllSlots())
      modifies this`view, this`owner, this`logged
      ensures Valid() && owner == Disowned(old(owner), inum)
      ensures Released(d0, old(owner), t0, view, inode, sb, inum)
      ensures sb.Ok(view) && inum < sb.ninodes && GetInode(view, sb, inum) == inode[inum]
      ensures Matches(d0, sb, t0) ==> Synced()
      ensures (forall k :: 0 <= k < |t0| ==> NoHoles(d0, t0[k], t0[k].size)) ==> Whole()
      ensures logged == old(logged) + {sb.IBlock(inum)}
      ensures old(Settled()) ==> Settled()
    {
      hide InMaps, Harmless, Changed, Ownership, ByteAt, Ref, Truncating, Used, GetInode, Super.IBlock, Super.Ok,
           NoHoles, Released, SameBytes, Matches;
      MetaUsed(d0, sb, t0, owner);
      TruncEnd(d0, sb, t0, owner, view, inum);
      if old(Settled()) { StillHarmless(leaked, owner, sb, inum); }
      owner := Disowned(owner, inum);
      ghost var d1 := view;
      MetaUsed(view, sb, inode, owner);
      InodeRoundTrip(view, sb, inum, inode[inum], inum);
      InodeKeepsBits(view, sb, inode, owner, inum);
      if Matches(d0, sb, t0) {
        TruncatedLow(d0, sb, old(owner), view, inum, AllSlots());
        SyncedAfter(d0, view, sb, t0, inode, inum);
      }
      Iupdate(inum);
      TruncReleased(d0, old(owner), t0, d1, view, inode, sb, inum);
      if forall k :: 0 <= k < |t0| ==> NoHoles(d0, t0[k], t0[k].size) { TruncWhole(d0, t0, d1, view, inode, inum); }
    }

    /** itrunc's first loop: the direct blocks. */
    method FreeDirect(inum: nat) returns (ok: bool)
      requires Valid() && inum < |inode|
      modifies this`view, this`inode, this`logged, this`maps
      ensures ok && Truncating(old(view), sb, owner, view, inum, DirectSlots(NDIRECT))
      ensures |inode| == |old(inode)| && inode == old(inode)[inum := inode[inum]]
      ensures inode[inum] == old(inode)[inum].(addrs := inode[inum].addrs)
      ensures forall s :: 0 <= s <= NDIRECT ==>
                            inode[inum].addrs[s] == if s < NDIRECT then 0 else old(inode)[inum].addrs[s]
      ensures logged == old(logged) + MapBlocks(owner, sb, inum, DirectSlots(NDIRECT)) && InMaps(maps, sb)
      ensures old(Settled()) ==> Settled()
    {
      hide MapBlocks, InMaps, Harmless, Changed, Ownership, ByteAt, Ref, Truncating, Used, Freed;
      ghost var d0, t0 := view, inode;
      TruncStart(d0, sb, t0, owner, inum);
      ok := true;
      var i := 0;
      assert DirectSlots(0) == {};
      MapBlocksStart(owner, sb, inum);
      while i < NDIRECT
        invariant 0 <= i <= NDIRECT && ok
        invariant |inode| == |t0| && inode == t0[inum := inode[inum]] &&
                  inode[inum] == t0[inum].(addrs := inode[inum].addrs)
        invariant forall s :: 0 <= s <= NDIRECT ==> inode[inum].addrs[s] == if s < i then 0 else t0[inum].addrs[s]
        invariant Truncating(d0, sb, owner, view, inum, DirectSlots(i)) && (old(Settled()) ==> Settled())
        invariant logged == old(logged) + MapBlocks(owner, sb, inum, DirectSlots(i)) && InMaps(maps, sb)
      {
        TruncStep(d0, sb, t0, owner, view, inum, DirectSlots(i), i);
        MapBlocksMore(d0, sb, t0, owner, inum, DirectSlots(i), i);
        AddrRef(d0, t0[inum], i);
        assert DirectSlots(i) + {i} == DirectSlots(i + 1);
        if inode[inum].addrs[i] != 0 {
          ok := Bfree(inode[inum].addrs[i]);
          inode := inode[inum := SetAddr(inode[inum], i, 0)];
        }
        i := i + 1;
      }
    }

    /** The second half of itrunc: the entries, then the indirect block itself. */
    method FreeIndirect(inum: nat, ghost d0: Disk, ghost t0: seq<Inode>, ghost l0: set<nat>) returns (ok: bool)
      requires Ownership(d0, sb, t0, owner) && inum < |inode| == |t0|
      requires inode[inum].addrs[NDIRECT] == t0[inum].addrs[NDIRECT] != 0
      requires Truncating(d0, sb, owner, view, inum, DirectSlots(NDIRECT))
      requires logged == l0 + MapBlocks(owner, sb, inum, DirectSlots(NDIRECT)) && InMaps(maps, sb)
      modifies this`view, this`logged, this`maps
      ensures ok && Truncating(d0, sb, owner, view, inum, AllSlots())
      ensures logged == l0 + MapBlocks(owner, sb, inum, AllSlots()) && InMaps(maps, sb)
      ensures old(Settled()) ==> Settled()
    {
      hide MapBlocks, InMaps, Harmless, Changed, Ownership, ByteAt, Ref, Truncating, Used, Freed, GetWord;
      var ind := inode[inum].addrs[NDIRECT];
      IndirectOwned(d0, sb, t0, owner, inum);
      EntriesKept(d0, sb, owner, view, inum, DirectSlots(NDIRECT), ind);
      var a := view[ind];
      ok := true;
      var j := 0;
      assert EntrySlots(0) == DirectSlots(NDIRECT);
      while j < NINDIRECT
        invariant 0 <= j <= NINDIRECT && ok
        invariant Truncating(d0, sb, owner, view, inum, EntrySlots(j)) && (old(Settled()) ==> Settled())
        invariant logged == l0 + MapBlocks(owner, sb, inum, EntrySlots(j)) && InMaps(maps, sb)
      {
        TruncStep(d0, sb, t0, owner, view, inum, EntrySlots(j), NDIRECT + 1 + j);
        MapBlocksMore(d0, sb, t0, owner, inum, EntrySlots(j), NDIRECT + 1 + j);
        EntryRef(d0, t0[inum], j);
        assert EntrySlots(j) + {NDIRECT + 1 + j} == EntrySlots(j + 1);
        if GetWord(a, j) != 0 {
          ok := Bfree(GetWord(a, j));
        }
        j := j + 1;
      }
      TruncStep(d0, sb, t0, owner, view, inum, EntrySlots(NINDIRECT), NDIRECT);
      MapBlocksMore(d0, sb, t0, owner, inum, EntrySlots(NINDIRECT), NDIRECT);
      AddrRef(d0, t0[inum], NDIRECT);
      assert EntrySlots(NINDIRECT) + {NDIRECT} == AllSlots();
      ok := Bfree(ind);
    }

    /** end_op: the logged blocks go to disk as the buffers hold them. */
    method Commit() returns (step: Step)
      requires Settled()
      modifies this`home, this`logged, this`maps, this`leaked
      ensures step == Step(old(home), old(logged), home) && Changed(old(home), home, old(logged), sb)
      ensures |old(home)| == |view| && home == Overlay(old(home), old(logged), view)
      ensures logged == {} && maps == {} && leaked == old(leaked) - old(logged) && Settled()
    {
      var after := Overlay(home, logged, view);
      step := Step(home, logged, after);
      leaked := leaked - logged;
      home, logged, maps := after, {}, {};
    }

    /** The cache gives the buffer of block b to another block; bread will then find what is on disk. Only a leaked
        change can be lost, since logged blocks are pinned. */
    method Evict(b: nat)
      requires Whole() && Settled() && b < |view| && b !in logged
      modifies this`view, this`leaked
      ensures Whole() && Settled() && |home| == |view| && view == old(view)[b := home[b]] && leaked <= old(leaked)
      ensures old(Synced()) ==> Synced()
    {
      hide Ownership, NoHoles, GetInode;
      ghost var d := view;
      if view[b] != home[b] {
        view := view[b := home[b]];
        leaked := leaked - {b};
        DataApart(d, view, sb, inode, owner, {b});
      } else {
        assert view[b := home[b]] == view;
      }
    }

    /** Between transactions the disk is sound, whatever was leaked. */
    lemma HomeSound()
      requires Whole() && Synced() && Settled() && logged == {}
      ensures Sound(home, sb) && |home| == |view|
    {
      assert logged + leaked == leaked;
      DataApart(view, home, sb, inode, owner, leaked);
      SoundNow(home, sb, inode, owner);
    }

    /** The end of a transaction, whichever operations' updates it holds: the disk goes from what the last commit left
        to a sound file system. */
    method EndTxn() returns (step: Step)
      requires Whole() && Synced() && Settled()
      modifies this`home, this`logged, this`maps, this`leaked
      ensures Whole() && Synced() && Settled() && logged == {} && maps == {} && leaked == old(leaked) - old(logged)
      ensures step == Step(old(home), old(logged), home) && Changed(old(home), home, old(logged), sb)
      ensures Sound(home, sb)
    {
      hide Ownership, NoHoles, GetInode, Changed, Harmless, Overlay, Sound, InMaps, Matches;
      NoMaps(sb);
      step := Commit();
      HomeSound();
    }

    /** begin_op, itrunc, end_op. */
    method TruncTxn(inum: nat) returns (step: Step)
      requires Whole() && Synced() && Settled() && logged == {} && inum < |inode|
      modifies this
      ensures Whole() && Synced() && Settled() && logged == {} && leaked <= old(leaked)
      ensures inode == old(inode)[inum := Emptied(old(inode)[inum])]
      ensures step == Step(old(home), MapBlocks(old(owner), sb, inum, AllSlots()) + {sb.IBlock(inum)}, home)
      ensures Changed(old(home), home, step.logged, sb) && Sound(home, sb)
    {
      hide Ownership, NoHoles, GetInode, ByteAt, Ref, Changed, Harmless, Overlay, MapBlocks, Sound, Used;
      var ok := Itrunc(inum);
      assert logged == MapBlocks(old(owner), sb, inum, AllSlots()) + {sb.IBlock(inum)};
      step := EndTxn();
    }

    /** An operation's writei of at most three blocks, in a transaction that may hold updates of others: it logs at most
        MAXOPBLOCKS more blocks. */
    method WriteOp(inum: nat, off: nat, src: seq<Byte>, good: nat, leak: nat) returns (r: int, ok: bool)
      requires Whole() && Synced() && Settled()
      requires inum < |inode| && off < 0x1_0000_0000 && |src| <= 3 * BSIZE
      modifies this`view, this`inode, this`owner, this`logged, this`maps, this`leaked
      ensures ok ==> Whole() && Synced() && Settled() && |inode| == |old(inode)|
      ensures ok ==> |logged| <= |old(logged)| + MAXOPBLOCKS && (sb.size <= BPB ==> |logged| <= |old(logged)| + 7)
      ensures !ok ==> AllUsed(view, sb)
      ensures ok && (good >= |src| || Rejected(old(inode)[inum], off, |src|)) ==> leaked <= old(leaked)
      ensures ok ==> r <= |src| && (r == |src| ==>
                Patched(old(view), old(inode), view, inode, inum, off, src) &&
                inode[inum].size == Max(old(inode)[inum].size, off + |src|))
      ensures ok && r == |src| ==> !Rejected(old(inode)[inum], off, |src|)
      ensures ok && good >= |src| && !Rejected(old(inode)[inum], off, |src|) ==> r == |src|
    {
      hide Ownership, NoHoles, Patched, GetInode, ByteAt, Ref, Rejected, Changed, Harmless, Covered, AllUsed, AllThere,
           Reach, Spill, InMaps;
      maps := {};
      NoMaps(sb);
      ghost var spill;
      r, ok, spill := Writei(inum, off, src, good, leak);
      if !ok { return; }
      if !Rejected(old(inode)[inum], off, |src|) {
        ReachBounds(off, good, leak, |src|);
        ReachAll(off, good, leak, |src|);
      }
      if r == |src| { assert src[..r + spill] == src; }
    }

    /** begin_op, writei, end_op. */
    method WriteTxn(inum: nat, off: nat, src: seq<Byte>, good: nat, leak: nat) returns (r: int, ok: bool, step: Step)
      requires Whole() && Synced() && Settled() && logged == {}
      requires inum < |inode| && off < 0x1_0000_0000 && |src| <= 3 * BSIZE
      modifies this
      ensures ok ==> Whole() && Synced() && Settled() && logged == {} && |inode| == |old(inode)|
      ensures ok ==> step == Step(old(home), step.logged, home) && Changed(old(home), home, step.logged, sb) &&
                     Sound(home, sb)
      ensures ok ==> |step.logged| <= MAXOPBLOCKS && (sb.size <= BPB ==> |step.logged| <= 7)
      ensures !ok ==> AllUsed(view, sb) && home == old(home)
      ensures ok && (good >= |src| || Rejected(old(inode)[inum], off, |src|)) ==> leaked <= old(leaked)
      ensures ok ==> r <= |src| && (r == |src| ==>
                Patched(old(view), old(inode), view, inode, inum, off, src) &&
                inode[inum].size == Max(old(inode)[inum].size, off + |src|))
      ensures ok && r == |src| ==> !Rejected(old(inode)[inum], off, |src|)
      ensures ok && good >= |src| && !Rejected(old(inode)[inum], off, |src|) ==> r == |src|
    {
      hide Ownership, NoHoles, Patched, GetInode, Rejected, Changed, Harmless, AllUsed, Sound, InMaps, Matches;
      r, ok := WriteOp(inum, off, src, good, leak);
      if ok { step := EndTxn(); } else { step := Step(home, {}, home); }
    }

    /** filewrite on an inode: transactions of at most three blocks. Each logs at most MAXOPBLOCKS distinct blocks and,
        whatever the copies did, takes a sound disk to a sound disk by logged writes alone. off is f->off. */
    method Filewrite(inum: nat, off: nat, src: seq<Byte>, n: int, good: nat, leak: nat)
      returns (ret: int, off': nat, ok: bool, steps: seq<Step>)
      requires Whole() && Synced() && Settled() && logged == {} && inum < |inode| && off < 0x1_0000_0000
      requires n < 0x8000_0000 && (0 <= n ==> n == |src|)
      modifies this
      ensures Bounded(steps, sb) && Transactions(old(home), steps, home, sb)
      ensures !ok ==> AllUsed(view, sb)
      ensures ok ==> Whole() && Synced() && Settled() && logged == {}
      ensures ok && good >= n ==> leaked <= old(leaked)
      ensures ok ==> ret == -1 || ret == n
      ensures n < 0 ==> ok && ret == -1 && view == old(view) && home == old(home)
      ensures ok && 0 <= n == ret ==>
                && off' == off + n && Patched(old(view), old(inode), view, inode, inum, off, src)
                && inode[inum].size == if n == 0 then old(inode)[inum].size else Max(old(inode)[inum].size, off + n)
      ensures ok && 0 <= n == ret ==> n == 0 || !Rejected(old(inode)[inum], off, n)
      ensures ok && 0 <= n <= good && (n == 0 || !Rejected(old(inode)[inum], off, n)) ==> ret == n
    {
      hide Bounded, InMaps, Matches, Ownership, NoHoles, Patched, GetInode, ByteAt, Ref, Changed, Sound, Transactions,
           Harmless, AllUsed;
      var max := (MAXOPBLOCKS - 1 - 1 - 2) / 2 * BSIZE;
      var i := 0;
      off', ok, steps := off, true, [];
      ghost var d0, t0, h0 := view, inode, home;
      PatchedNone(d0, t0, inum, off, src);
      HomeSound();
      NoTransactions(h0, sb);
      assert Bounded([], sb) by { NoneBounded(sb); }
      while i < n
        invariant 0 <= i && (0 <= n ==> i <= n) && (n < 0 ==> i == 0 && view == d0 && home == h0)
        invariant ok && Whole() && Synced() && Settled() && logged == {} && inum < |inode| == |t0|
        invariant off' == off + i && off' < 0x1_0000_0000 && i <= |src|
        invariant Patched(d0, t0, view, inode, inum, off, src[..i])
        invariant inode[inum].size == if i == 0 then t0[inum].size else Max(t0[inum].size, off + i)
        invariant i > 0 ==> off + i <= MAXFILE * BSIZE && off <= t0[inum].size
        invariant Bounded(steps, sb) && Transactions(h0, steps, home, sb) && (good >= n ==> leaked <= old(leaked))
      {
        var n1 := n - i;
        if n1 > max {
          n1 := max;
        }
        ghost var d1, t1 := view, inode;
        var r, step;
        r, ok, step := WriteTxn(inum, off', src[i..i + n1], if good > i then good - i else 0, leak);
        if !ok {
          return -1, off', false, steps;
        }
        OneTransaction(h0, steps, step, sb);
        BoundedMore(steps, step, sb);
        steps := steps + [step];
        if r > 0 {
          off' := off' + r;
        }
        if r != n1 {
          return -1, off', true, steps;
        }
        PatchedMore(d0, t0, d1, t1, view, inode, inum, off, src, i, n1);
        i := i + r;
      }
      if 0 <= n { assert src[..n] == src; }
      ret := if i == n then n else -1;
    }
  }

  // What a crash would find

  /** The free-map blocks there are. */
  ghost predicate InMaps(maps: set<nat>, sb: Super) {
    forall x :: x in maps ==> sb.bmapstart <= x <= sb.bmapstart + sb.size / BPB &&
                              (sb.size <= BPB ==> x == sb.bmapstart)
  }

  lemma NoMaps(sb: Super)
    ensures InMaps({}, sb)
  {
  }

  lemma MapBlock(sb: Super, b: nat)
    requires b < sb.size
    ensures InMaps({sb.BBlock(b)}, sb)
  {
    assert b / BPB <= sb.size / BPB;
  }

  /** Blocks whose contents decide nothing about who owns what. */
  ghost predicate Harmless(leaked: set<nat>, owner: Owner, sb: Super) {
    forall b :: b in leaked ==> sb.datastart <= b && (b in owner ==> owner[b].1 != NDIRECT)
  }

  lemma StillHarmless(leaked: set<nat>, owner: Owner, sb: Super, inum: nat)
    requires Harmless(leaked, owner, sb)
    ensures Harmless(leaked, Disowned(owner, inum), sb)
  {
  }

  /** d with the blocks in s taken from v. */
  function Overlay(d: Disk, s: set<nat>, v: Disk): (r: Disk)
    requires |d| == |v|
    ensures |r| == |d| && forall b :: 0 <= b < |d| ==> r[b] == if b in s then v[b] else d[b]
  {
    seq(|d|, b requires 0 <= b < |d| => if b in s then v[b] else d[b])
  }

  lemma DataApartRef(d: Disk, e: Disk, sb: Super, t: seq<Inode>, owner: Owner, diff: set<nat>, k: nat, s: nat)
    requires Ownership(d, sb, t, owner) && Changed(e, d, diff, sb) && Harmless(diff, owner, sb) && k < |t| && s < SLOTS
    ensures Ref(e, t[k], s) == Ref(d, t[k], s)
  {
    hide Used, GetWord, TestBit;
    if s > NDIRECT && t[k].addrs[NDIRECT] != 0 { IndirectOwned(d, sb, t, owner, k); }
  }

  lemma DataApartUsed(d: Disk, e: Disk, sb: Super, owner: Owner, diff: set<nat>, b: nat)
    requires sb.Ok(d) && Changed(e, d, diff, sb) && Harmless(diff, owner, sb) && b < sb.size
    ensures sb.Ok(e) && Used(e, sb, b) == Used(d, sb, b)
  {
    MapLayout(d, sb, b, b);
    hide TestBit;
  }

  /** Disks that differ in harmless blocks only have the same inodes, references and free map. */
  lemma DataApart(d: Disk, e: Disk, sb: Super, t: seq<Inode>, owner: Owner, diff: set<nat>)
    requires Ownership(d, sb, t, owner) && Changed(e, d, diff, sb) && Harmless(diff, owner, sb)
    ensures |e| == |d| && Ownership(e, sb, t, owner)
    ensures forall k :: 0 <= k < sb.ninodes ==> GetInode(e, sb, k) == GetInode(d, sb, k)
    ensures forall k :: 0 <= k < |t| ==> (NoHoles(d, t[k], t[k].size) ==> NoHoles(e, t[k], t[k].size))
  {
    hide Used, Ref, Super.Ok, GetWord, GetAddrs;
    LayoutFacts(d, sb, e);
    forall k, s | 0 <= k < |t| && 0 <= s < SLOTS ensures Ref(e, t[k], s) == Ref(d, t[k], s) {
      DataApartRef(d, e, sb, t, owner, diff, k, s);
    }
    forall b | 0 <= b < sb.size ensures Used(e, sb, b) == Used(d, sb, b) { DataApartUsed(d, e, sb, owner, diff, b); }
    forall k | 0 <= k < sb.ninodes ensures GetInode(e, sb, k) == GetInode(d, sb, k) { InodeLayout(d, sb, k, k); }
  }

  lemma TruncReleased(d0: Disk, owner: Owner, t0: seq<Inode>, d1: Disk, d2: Disk, t: seq<Inode>, sb: Super, inum: nat)
    requires sb.Ok(d0) && sb.Ok(d1) && sb.Ok(d2) && inum < |t0| && t == t0[inum := Emptied(t0[inum])]
    requires forall b :: 0 <= b < sb.size ==>
                           Used(d1, sb, b) == (Used(d0, sb, b) && !(b in owner && owner[b].0 == inum))
    requires forall k, p: nat :: 0 <= k < |t0| && k != inum ==> ByteAt(d1, t0[k], p) == ByteAt(d0, t0[k], p)
    requires forall b :: 0 <= b < sb.size ==> Used(d2, sb, b) == Used(d1, sb, b)
    requires SameBytes(d1, t, d2, t)
    ensures Released(d0, owner, t0, d2, t, sb, inum)
  {
    hide Used, ByteAt, Super.Ok;
  }

  lemma TruncWhole(d0: Disk, t0: seq<Inode>, d1: Disk, d2: Disk, t: seq<Inode>, inum: nat)
    requires inum < |t0| && t == t0[inum := Emptied(t0[inum])]
    requires forall k :: 0 <= k < |t0| ==> NoHoles(d0, t0[k], t0[k].size)
    requires forall k, s :: 0 <= k < |t| && k != inum && 0 <= s < SLOTS ==> Ref(d1, t0[k], s) == Ref(d0, t0[k], s)
    requires forall k, s :: 0 <= k < |t| && 0 <= s < SLOTS ==> Ref(d2, t[k], s) == Ref(d1, t[k], s)
    ensures forall k :: 0 <= k < |t| ==> NoHoles(d2, t[k], t[k].size)
  {
    hide Ref;
    forall k | 0 <= k < |t| ensures NoHoles(d2, t[k], t[k].size) { assert NoHoles(d0, t0[k], t0[k].size); }
  }

  // The free-map blocks itrunc touches

  ghost function MapBlocks(owner: Owner, sb: Super, inum: nat, done: set<nat>): (s: set<nat>) {
    set b | b in owner && owner[b].0 == inum && owner[b].1 in done :: sb.BBlock(b)
  }

  lemma MapBlocksStart(owner: Owner, sb: Super, inum: nat)
    ensures MapBlocks(owner, sb, inum, {}) == {}
  {
  }

  lemma MapBlocksMore(d: Disk, sb: Super, t: seq<Inode>, owner: Owner, inum: nat, done: set<nat>, s: nat)
    requires Ownership(d, sb, t, owner) && inum < |t| && s < SLOTS
    ensures var r := Ref(d, t[inum], s);
            MapBlocks(owner, sb, inum, done + {s}) == MapBlocks(owner, sb, inum, done) +
            (if r == 0 then {} else {sb.BBlock(r)})
  {
    hide Super.BBlock, Used, GetWord;
    var r := Ref(d, t[inum], s);
    if r == 0 { NobodyThere(d, sb, t, owner, inum, s); } else { assert r in owner && owner[r] == (inum, s); }
    assert forall b :: b in owner && owner[b] == (inum, s) ==> b == r;
  }

  lemma MapBlocksNone(d: Disk, sb: Super, t: seq<Inode>, owner: Owner, inum: nat)
    requires Ownership(d, sb, t, owner) && inum < |t| && t[inum].addrs[NDIRECT] == 0
    ensures MapBlocks(owner, sb, inum, AllSlots()) == MapBlocks(owner, sb, inum, DirectSlots(NDIRECT))
  {
    hide Super.BBlock, Used, GetWord;
    forall s: nat | NDIRECT <= s < SLOTS ensures forall b :: b in owner ==> owner[b] != (inum, s) {
      NobodyThere(d, sb, t, owner, inum, s);
    }
  }

  // How far a write gets, and what it leaks

  /** Bytes writei reports when only the first `good` of n can be copied: those before the block it fails in. */
  function Reach(off: nat, good: nat, n: nat): (r: nat)
    ensures r <= n
  {
    if good >= n then n
    else if (off + good) / BSIZE * BSIZE <= off then 0
    else (off + good) / BSIZE * BSIZE - off
  }

  /** Bytes the failing copy leaves in the buffer. */
  function Spill(off: nat, good: nat, leak: nat, n: nat): (k: nat)
  {
    if good >= n then 0
    else
      var r := Reach(off, good, n);
      var m := Min(n - r, BSIZE - (off + r) % BSIZE);
      if m == 0 then 0 else Min(leak, m - 1)
  }

  lemma ReachBounds(off: nat, good: nat, leak: nat, n: nat)
    ensures var r, k := Reach(off, good, n), Spill(off, good, leak, n);
            && r + k <= n && r <= good && (r == n ==> k == 0) &&
               (good < n ==> r < n && (off + r) / BSIZE == (off + good) / BSIZE)
            && (good < n ==> (off + r) % BSIZE + k < BSIZE && (r > 0 ==> (off + r) % BSIZE == 0))
  {
  }

  lemma ReachAll(off: nat, good: nat, leak: nat, n: nat)
    ensures good >= n ==> Reach(off, good, n) == n && Spill(off, good, leak, n) == 0
  {
  }

  lemma ReachIs(off: nat, good: nat, leak: nat, n: nat, tot: nat, m: nat)
    requires tot < n && (tot == 0 || (off + tot) % BSIZE == 0) && tot <= good < tot + m
    requires m == if n - tot < BSIZE - (off + tot) % BSIZE then n - tot else BSIZE - (off + tot) % BSIZE
    ensures good < n && Reach(off, good, n) == tot && (off + tot) / BSIZE == (off + good) / BSIZE
    ensures Spill(off, good, leak, n) == if leak < m then leak else m - 1
  {
    assert off + good < off + tot + BSIZE - (off + tot) % BSIZE;
    assert (off + tot) / BSIZE == (off + good) / BSIZE;
  }

  /** Every block the range touches is there already. */
  ghost predicate AllThere(d: Disk, ip: Inode, off: nat, n: nat) {
    forall bn :: off / BSIZE <= bn < MAXFILE && bn * BSIZE < off + n ==> Ref(d, ip, Slot(bn)) != 0
  }

  /** Only block bn of the file, its indirect block and free-map blocks were added to or logged. */
  ghost predicate Lone(d: Disk, t: seq<Inode>, l: set<nat>, d': Disk, t': seq<Inode>, l': set<nat>, sb: Super,
                       inum: nat, bn: nat)
  {
    && inum < |t| == |t'| && bn < MAXFILE
    && (forall s :: 0 <= s < SLOTS && s != Slot(bn) && s != NDIRECT ==> Ref(d', t'[inum], s) == Ref(d, t[inum], s))
    && (forall x :: x in l' ==> x in l || x == Ref(d', t'[inum], Slot(bn)) || x in Indirect(t'[inum]) ||
                                x < sb.datastart)
  }

  /** From block bn on the file's references are those at the start, and no block there has been logged. */
  ghost predicate Ahead(s0: Snap, s: Snap, inum: nat, bn: nat) {
    && inum < |s0.t| && inum < |s.t|
    && forall b :: bn <= b < MAXFILE ==>
         && Ref(s.d, s.t[inum], Slot(b)) == Ref(s0.d, s0.t[inum], Slot(b))
         && (s0.logged == {} && Ref(s0.d, s0.t[inum], Slot(b)) != 0 ==> Ref(s0.d, s0.t[inum], Slot(b)) !in s.logged)
  }

  lemma AheadStart(s: Snap, inum: nat, bn: nat)
    requires inum < |s.t|
    ensures Ahead(s, s, inum, bn)
  {
  }

  lemma AheadStep(s0: Snap, s: Snap, s': Snap, sb: Super, owner: Owner, inum: nat, bn: nat)
    requires Ahead(s0, s, inum, bn) && Lone(s.d, s.t, s.logged, s'.d, s'.t, s'.logged, sb, inum, bn)
    requires Ownership(s'.d, sb, s'.t, owner) && Ref(s'.d, s'.t[inum], Slot(bn)) != 0
    ensures Ahead(s0, s', inum, bn + 1)
  {
    hide Ref, Used;
    AddrOwned(s'.d, sb, s'.t, owner, inum, bn);
    forall b | bn + 1 <= b < MAXFILE
      ensures Ref(s'.d, s'.t[inum], Slot(b)) == Ref(s0.d, s0.t[inum], Slot(b))
      ensures s0.logged == {} && Ref(s0.d, s0.t[inum], Slot(b)) != 0 ==> Ref(s0.d, s0.t[inum], Slot(b)) !in s'.logged
    {
      if Ref(s'.d, s'.t[inum], Slot(b)) != 0 {
        AddrOwned(s'.d, sb, s'.t, owner, inum, b);
        if s'.t[inum].addrs[NDIRECT] != 0 { IndirectOwned(s'.d, sb, s'.t, owner, inum); }
      }
    }
  }

  lemma Missing(s0: Snap, s: Snap, inum: nat, off: nat, n: nat, tot: nat, c: nat)
    requires Ahead(s0, s, inum, off / BSIZE + c) && (off + tot) / BSIZE == off / BSIZE + c < MAXFILE && tot < n
    requires Ref(s.d, s.t[inum], Slot((off + tot) / BSIZE)) == 0
    ensures !AllThere(s0.d, s0.t[inum], off, n)
  {
    hide Ref;
    var bn := (off + tot) / BSIZE;
    assert bn * BSIZE <= off + tot;
    assert Ref(s0.d, s0.t[inum], Slot(bn)) == 0;
  }

  /** What a write that stops short has leaked: nothing if the block it failed in is new, since bzero logged it; at
      most that block otherwise, which is then not logged. */
  ghost predicate Stopped(d: Disk, ip: Inode, l0: set<nat>, k0: set<nat>, l: set<nat>, k: set<nat>, off: nat,
                          good: nat, n: nat)
  {
    good < n && off + n <= MAXFILE * BSIZE && (off + good) / BSIZE < MAXFILE &&
    var a := Ref(d, ip, Slot((off + good) / BSIZE));
    if a == 0 then k <= k0 else k <= k0 + {a} && (l0 == {} ==> a !in l)
  }

  lemma StopsHere(s0: Snap, s: Snap, s': Snap, inum: nat, off: nat, src: seq<Byte>, good: nat, leak: nat, tot: nat,
                  c: nat,
                  data: set<nat>, m: nat, k: nat, k0: set<nat>, k1: set<nat>, k2: set<nat>)
    requires Progress(s0, s, inum, off, src, tot, 0, c, false, data) && tot < |src| &&
             Ahead(s0, s, inum, off / BSIZE + c)
    requires m == if |src| - tot < BSIZE - (off + tot) % BSIZE then |src| - tot else BSIZE - (off + tot) % BSIZE
    requires k == (if leak < m then leak else m - 1) && tot <= good < tot + m && k1 <= k0 &&
             (off + tot) / BSIZE < MAXFILE
    requires var a := Ref(s.d, s.t[inum], Slot((off + tot) / BSIZE));
      if a == 0 then k2 <= k1 else s'.logged == s.logged && k2 <= k1 + {a}
    ensures tot == Reach(off, good, |src|) && k == Spill(off, good, leak, |src|)
    ensures Stopped(s0.d, s0.t[inum], s0.logged, k0, s'.logged, k2, off, good, |src|)
  {
    hide Ref, Grows, Patched, NoHoles, Indirect, MapBound, Reach, Spill;
    CursorStep(off, tot, |src|, c, m);
    CursorAligned(off, tot, |src|, c);
    ReachIs(off, good, leak, |src|, tot, m);
  }

  lemma CursorAligned(off: nat, tot: nat, n: nat, c: nat)
    requires Cursor(off, tot, n, c, false) && tot < n
    ensures tot == 0 || (off + tot) % BSIZE == 0
  {
  }

  lemma FinishStopped(d: Disk, t: seq<Inode>, owner: Owner, sb: Super, l: set<nat>, k: set<nat>, inum: nat, off: nat,
                      good: nat, n: nat)
    requires Ownership(d, sb, t, owner) && inum < |t|
    requires good < n ==> Stopped(d, t[inum], {}, {}, l, k, off, good, n)
    ensures good < n ==> Stopped(d, t[inum], {}, {}, l + {sb.IBlock(inum)}, k, off, good, n)
  {
    hide Ref, Ownership, Super.IBlock, Super.Ok;
    if good < n {
      MetaUsed(d, sb, t, owner);
      InodeLayout(d, sb, inum, inum);
      if Ref(d, t[inum], Slot((off + good) / BSIZE)) != 0 { AddrOwned(d, sb, t, owner, inum, (off + good) / BSIZE); }
    }
  }

  /** When every block writei changes has been logged: the range is rejected, all bytes can be copied, the block of the
      first byte that cannot is new, or the bytes that do reach it are those it already holds. */
  ghost predicate Covered(d: Disk, ip: Inode, off: nat, src: seq<Byte>, good: nat, leak: nat) {
    Rejected(ip, off, |src|) || good >= |src| || Ref(d, ip, Slot((off + good) / BSIZE)) == 0 ||
    var r, k := Reach(off, good, |src|), Spill(off, good, leak, |src|);
    forall i :: r <= i < r + k && i < |src| ==> src[i] == ByteAt(d, ip, off + i)
  }

  lemma RejectedCovered(d: Disk, ip: Inode, off: nat, src: seq<Byte>, good: nat, leak: nat, l: set<nat>, k: set<nat>)
    requires Rejected(ip, off, |src|)
    ensures Covered(d, ip, off, src, good, leak) && (k == {} ==> l + k == l)
  {
  }

  lemma SameDisk(d: Disk, e: Disk, sb: Super)
    requires Changed(d, e, {}, sb)
    ensures d == e
  {
  }

  /** p is a position in block bn. */
  predicate InBlockOf(p: nat, bn: nat) { p / BSIZE == bn }

  /** A file's block is the same exactly if the file reads the same there. */
  lemma BlockSame(d: Disk, e: Disk, ip: Inode, jp: Inode, bn: nat, a: nat)
    requires bn < MAXFILE && a != 0 && a < |d| == |e| && Ref(d, ip, Slot(bn)) == a == Ref(e, jp, Slot(bn))
    ensures d[a] == e[a] <==> forall p: nat :: InBlockOf(p, bn) ==> ByteAt(d, ip, p) == ByteAt(e, jp, p)
  {
    hide Ref;
    if forall p: nat :: InBlockOf(p, bn) ==> ByteAt(d, ip, p) == ByteAt(e, jp, p) {
      forall q | 0 <= q < BSIZE ensures d[a][q] == e[a][q] {
        InBlock(bn * BSIZE, q);
        assert InBlockOf(bn * BSIZE + q, bn);
      }
    }
  }

  /** The block a short write fails in is as it was exactly if the bytes spilled into it are. */
  lemma SpilledSame(d: Disk, t: seq<Inode>, e: Disk, t': seq<Inode>, inum: nat, off: nat, src: seq<Byte>, good: nat,
                    leak: nat, a: nat)
    requires inum < |t| && good < |src| && off + |src| <= MAXFILE * BSIZE && (off + good) / BSIZE < MAXFILE
    requires a != 0 && a < |d| == |e| && Ref(d, t[inum], Slot((off + good) / BSIZE)) == a
    requires var r, k := Reach(off, good, |src|), Spill(off, good, leak, |src|);
      r + k <= |src| && Patched(d, t, e, t', inum, off, src[..r + k])
    requires Ref(e, t'[inum], Slot((off + good) / BSIZE)) == a && !Rejected(t[inum], off, |src|)
    ensures d[a] == e[a] <==> Covered(d, t[inum], off, src, good, leak)
  {
    hide Ref, ByteAt, Reach, Spill;
    var r, k := Reach(off, good, |src|), Spill(off, good, leak, |src|);
    var bn := (off + good) / BSIZE;
    ReachBounds(off, good, leak, |src|);
    BlockSame(d, e, t[inum], t'[inum], bn, a);
    forall i | r <= i < r + k ensures ByteAt(e, t'[inum], off + i) == src[i] && InBlockOf(off + i, bn) {
      assert src[..r + k][i] == src[i];
      InBlock(off + r, i - r);
    }
    forall p: nat | InBlockOf(p, bn) && !(off + r <= p < off + r + k)
      ensures ByteAt(d, t[inum], p) == ByteAt(e, t'[inum], p) {
      assert !(off <= p < off + r) by { if r > 0 { BeforeBlock(off + r, bn, p); } }
    }
    forall p: nat | off + r <= p < off + r + k ensures ByteAt(e, t'[inum], p) == src[p - off] && InBlockOf(p, bn) {
      assert r <= p - off < r + k;
    }
  }

  lemma BeforeBlock(start: nat, bn: nat, p: nat)
    requires start % BSIZE == 0 && start / BSIZE == bn && InBlockOf(p, bn)
    ensures start <= p
  {
  }

  lemma LogsIff(d: Disk, t: seq<Inode>, owner: Owner, e: Disk, t': seq<Inode>, sb: Super, inum: nat, off: nat,
                src: seq<Byte>,
                good: nat, leak: nat, l: set<nat>, k: set<nat>)
    requires Ownership(d, sb, t, owner) && inum < |t| == |t'| && !Rejected(t[inum], off, |src|)
    requires var r, spill := Reach(off, good, |src|), Spill(off, good, leak, |src|);
      r + spill <= |src| && Patched(d, t, e, t', inum, off, src[..r + spill])
    requires good >= |src| ==> k <= {}
    requires good < |src| ==> Stopped(d, t[inum], {}, {}, l, k, off, good, |src|)
    requires Changed(d, e, l + k, sb)
    requires forall s :: 0 <= s < SLOTS && Ref(d, t[inum], s) != 0 ==> Ref(e, t'[inum], s) == Ref(d, t[inum], s)
    ensures Changed(d, e, l, sb) <==> Covered(d, t[inum], off, src, good, leak)
  {
    hide Ref, ByteAt, Reach, Spill, Patched, Used;
    if good >= |src| || Ref(d, t[inum], Slot((off + good) / BSIZE)) == 0 {
      assert l + k == l;
    } else {
      var a := Ref(d, t[inum], Slot((off + good) / BSIZE));
      AddrOwned(d, sb, t, owner, inum, (off + good) / BSIZE);
      SpilledSame(d, t, e, t', inum, off, src, good, leak, a);
    }
  }

  /** Every block a file refers to, it refers to at the same place. */
  ghost predicate SameRefs(d: Disk, t: seq<Inode>, e: Disk, u: seq<Inode>) {
    |u| == |t| && forall k, s :: 0 <= k < |u| && 0 <= s < SLOTS ==> Ref(e, u[k], s) == Ref(d, t[k], s)
  }

  /** The whole of writei: which changes are logged, in terms of its arguments. */
  lemma WroteLogs(home: Disk, s0: Snap, s1: Snap, s2: Snap, owner: Owner, sb: Super, inum: nat, off: nat,
                  src: seq<Byte>,
                  good: nat, leak: nat, k0: set<nat>, k: set<nat>)
    requires Ownership(s0.d, sb, s0.t, owner) && inum < |s0.t| && !Rejected(s0.t[inum], off, |src|)
    requires s0.logged == {} && k0 == {} && Changed(home, s0.d, s0.logged + k0, sb)
    requires Grows(s0.d, s0.t, s1.d, s1.t, inum) && SameRefs(s1.d, s1.t, s2.d, s2.t)
    requires var r, spill := Reach(off, good, |src|), Spill(off, good, leak, |src|);
      r + spill <= |src| && Patched(s0.d, s0.t, s2.d, s2.t, inum, off, src[..r + spill])
    requires good >= |src| ==> k <= {}
    requires good < |src| ==> Stopped(s0.d, s0.t[inum], {}, {}, s1.logged, k, off, good, |src|)
    requires s2.logged == s1.logged + {sb.IBlock(inum)} && Changed(home, s2.d, s2.logged + k, sb)
    ensures Changed(home, s2.d, s2.logged, sb) <==> Covered(s0.d, s0.t[inum], off, src, good, leak)
  {
    hide Ref, Ownership, Patched, Covered, Stopped, Reach, Spill, Rejected, Super.IBlock;
    assert s0.logged + k0 == {};
    SameDisk(home, s0.d, sb);
    hide Changed;
    FinishStopped(s0.d, s0.t, owner, sb, s1.logged, k, inum, off, good, |src|);
    LogsIff(s0.d, s0.t, owner, s2.d, s2.t, sb, inum, off, src, good, leak, s2.logged, k);
  }

  lemma OneMap(maps: set<nat>, sb: Super)
    requires InMaps(maps, sb) && sb.size <= BPB
    ensures |maps| <= 1
  {
    SubsetSize(maps, {sb.bmapstart});
  }

  lemma SameLowSelf(d: Disk, sb: Super)
    ensures SameLow(d, d, sb)
  {
  }

  lemma SameLowOn(d: Disk, d1: Disk, d2: Disk, sb: Super)
    requires SameLow(d, d1, sb) && SameLow(d1, d2, sb)
    ensures SameLow(d, d2, sb)
  {
  }

  function Indirect(ip: Inode): (s: set<nat>) {
    if ip.addrs[NDIRECT] == 0 then {} else {ip.addrs[NDIRECT]}
  }

  /** Blocks bmap must allocate for file block bn. */
  function Fresh(d: Disk, ip: Inode, bn: nat): (n: nat)
    requires bn < MAXFILE
  {
    (if Ref(d, ip, Slot(bn)) == 0 then 1 else 0) + (if bn >= NDIRECT && ip.addrs[NDIRECT] == 0 then 1 else 0)
  }

  lemma BitPlace(sb: Super, base: nat, bi: nat)
    requires base % BPB == 0 && bi < BPB
    ensures sb.BBlock(base + bi) == sb.BBlock(base) && (base + bi) % BPB == bi
  {
  }

  lemma GrowsOn(d: Disk, t: seq<Inode>, d1: Disk, t1: seq<Inode>, d2: Disk, t2: seq<Inode>, inum: nat)
    requires Grows(d, t, d1, t1, inum) && Grows(d1, t1, d2, t2, inum)
    requires SameBytes(d, t, d1, t1) && SameBytes(d1, t1, d2, t2)
    ensures Grows(d, t, d2, t2, inum) && SameBytes(d, t, d2, t2)
  {
  }

  lemma AddrOwned(d: Disk, sb: Super, table: seq<Inode>, owner: Owner, inum: nat, bn: nat)
    requires Ownership(d, sb, table, owner) && inum < |table| && bn < MAXFILE && Ref(d, table[inum], Slot(bn)) != 0
    ensures var r := Ref(d, table[inum], Slot(bn));
            r in owner && owner[r] == (inum, Slot(bn)) && sb.datastart <= r < sb.size <= |d|
  {
  }

  /** In the block of position pos, the spliced byte of position p. */
  lemma SplicedByte(d: Disk, ip: Inode, p: nat, pos: nat, addr: nat, bytes: seq<Byte>)
    requires pos / BSIZE < MAXFILE && pos % BSIZE + |bytes| <= BSIZE && addr < |d|
    ensures p / BSIZE == pos / BSIZE && Ref(d, ip, Slot(pos / BSIZE)) == addr != 0 ==>
              Splice(d[addr], pos % BSIZE, bytes)[p % BSIZE] == if pos <= p < pos + |bytes| then bytes[p - pos]
                                                                  else ByteAt(d, ip, p)
    ensures p / BSIZE != pos / BSIZE ==> !(pos <= p < pos + |bytes|)
    ensures p / BSIZE < MAXFILE && Slot(p / BSIZE) == Slot(pos / BSIZE) ==> p / BSIZE == pos / BSIZE
  {
  }

  /** Splicing bytes into the block of position pos patches that file and disturbs no ownership. */
  lemma SpliceStored(d0: Disk, t0: seq<Inode>, d: Disk, sb: Super, t: seq<Inode>, owner: Owner, inum: nat, pos: nat,
                     bytes: seq<Byte>)
    requires Ownership(d, sb, t, owner) && Grows(d0, t0, d, t, inum) && SameBytes(d0, t0, d, t) && SameLow(d0, d, sb)
    requires pos / BSIZE < MAXFILE && pos % BSIZE + |bytes| <= BSIZE && Ref(d, t[inum], Slot(pos / BSIZE)) != 0
    ensures inum < |t| == |t0|
    ensures var addr := Ref(d, t[inum], Slot(pos / BSIZE));
            && sb.inodestart <= addr < |d|
            && var e := d[addr := Splice(d[addr], pos % BSIZE, bytes)];
               && Ownership(e, sb, t, owner) && Grows(d0, t0, e, t, inum) && SameLow(d0, e, sb)
               && Ref(e, t[inum], Slot(pos / BSIZE)) == addr && Patched(d0, t0, e, t, inum, pos, bytes)
               && forall s :: 0 <= s < SLOTS ==> Ref(e, t[inum], s) == Ref(d, t[inum], s)
  {
    hide RefsOwned, OwnedUsed, GetWord, PutWord, Super.Ok;
    var addr := Ref(d, t[inum], Slot(pos / BSIZE));
    AddrOwned(d, sb, t, owner, inum, pos / BSIZE);
    LayoutFacts(d, sb, d);
    var b := Splice(d[addr], pos % BSIZE, bytes);
    StoreBlock(d, sb, t, owner, addr, b);
    forall k, p: nat | 0 <= k < |t|
      ensures ByteAt(d[addr := b], t[k], p) == if k == inum && pos <= p < pos + |bytes| then bytes[p - pos]
                                                 else ByteAt(d0, t0[k], p)
    {
      SplicedByte(d, t[k], p, pos, addr, bytes);
    }
  }

  lemma MetaUsed(d: Disk, sb: Super, table: seq<Inode>, owner: Owner)
    requires Ownership(d, sb, table, owner)
    ensures sb.Ok(d) && |table| == sb.ninodes
    ensures 0 < sb.datastart <= sb.size < 0x1_0000_0000 && forall c :: 0 <= c < sb.datastart ==> Used(d, sb, c)
  {
  }

  function Max(a: nat, b: nat): (c: nat) { if a >= b then a else b }

  /** writei's two early exits; the sum is 32-bit. */
  predicate Rejected(ip: Inode, off: nat, n: nat) {
    off > ip.size || off + n >= 0x1_0000_0000 || off + n > MAXFILE * BSIZE
  }

  /** File inum reads as before with bytes put at offset off; the other files as before. */
  ghost predicate Patched(d: Disk, t: seq<Inode>, e: Disk, t': seq<Inode>, inum: nat, off: nat, bytes: seq<Byte>) {
    |t| == |t'| && forall k, p: nat :: 0 <= k < |t| ==>
      ByteAt(e, t'[k], p) == if k == inum && off <= p < off + |bytes| then bytes[p - off] else ByteAt(d, t[k], p)
  }

  // writei's cursor: c blocks have been touched, from block off / BSIZE on

  predicate Cursor(off: nat, tot: nat, n: nat, c: nat, failed: bool) {
    && (n > 0 ==> off / BSIZE + c <= (off + n - 1) / BSIZE + 1)
    && (n == 0 ==> c == 0)
    && (!failed ==> (tot == 0 <==> c == 0))
    && (!failed && 0 < tot ==> off / BSIZE + c == (off + tot - 1) / BSIZE + 1)
    && (!failed && 0 < tot < n ==> (off + tot) % BSIZE == 0)
  }

  lemma CursorStep(off: nat, tot: nat, n: nat, c: nat, m: nat)
    requires Cursor(off, tot, n, c, false) && tot < n
    requires m == if n - tot < BSIZE - (off + tot) % BSIZE then n - tot else BSIZE - (off + tot) % BSIZE
    ensures 0 < m <= n - tot && (off + tot) % BSIZE + m <= BSIZE && (off + tot) / BSIZE == off / BSIZE + c
    ensures Cursor(off, tot + m, n, c + 1, false) && Cursor(off, tot, n, c + 1, true)
  {
  }

  /** A write of at most three blocks touches at most four, and three when aligned. */
  lemma CursorEnd(off: nat, tot: nat, n: nat, c: nat, failed: bool)
    requires Cursor(off, tot, n, c, failed)
    ensures n <= 3 * BSIZE ==> c <= if off % BSIZE == 0 then 3 else 4
  {
  }

  /** Allocations so far: one per touched block, except a misaligned first one, and the indirect block. */
  function MapBound(off: nat, c: nat, ip0: Inode, ip: Inode): (k: nat) {
    (if c > 0 && off % BSIZE != 0 then c - 1 else c) +
    (if ip0.addrs[NDIRECT] == 0 && ip.addrs[NDIRECT] != 0 then 1 else 0)
  }

  lemma PatchedNone(d: Disk, t: seq<Inode>, inum: nat, off: nat, src: seq<Byte>)
    ensures Patched(d, t, d, t, inum, off, src[..0])
  {
  }

  lemma PatchedMore(d: Disk, t: seq<Inode>, d1: Disk, t1: seq<Inode>, d2: Disk, t2: seq<Inode>,
                    inum: nat, off: nat, src: seq<Byte>, tot: nat, k: nat)
    requires tot + k <= |src|
    requires Patched(d, t, d1, t1, inum, off, src[..tot]) && Patched(d1, t1, d2, t2, inum, off + tot, src[tot..tot + k])
    ensures Patched(d, t, d2, t2, inum, off, src[..tot + k])
  {
    hide ByteAt;
  }

  lemma GrowsTrans(d: Disk, t: seq<Inode>, d1: Disk, t1: seq<Inode>, d2: Disk, t2: seq<Inode>, inum: nat)
    requires Grows(d, t, d1, t1, inum) && Grows(d1, t1, d2, t2, inum)
    ensures Grows(d, t, d2, t2, inum)
  {
    hide Ref;
  }

  lemma IndirectKept(d: Disk, t: seq<Inode>, e: Disk, t': seq<Inode>, inum: nat)
    requires Grows(d, t, e, t', inum) && t[inum].addrs[NDIRECT] != 0
    ensures t'[inum].addrs[NDIRECT] == t[inum].addrs[NDIRECT]
  {
    assert Ref(d, t[inum], NDIRECT) == t[inum].addrs[NDIRECT];
    assert Ref(e, t'[inum], NDIRECT) == t'[inum].addrs[NDIRECT];
  }

  lemma NoHolesMore(d: Disk, t: seq<Inode>, e: Disk, t': seq<Inode>, inum: nat, off: nat, tot: nat, m: nat)
    requires Grows(d, t, e, t', inum) && NoHoles(d, t[inum], Max(t[inum].size, off + tot))
    requires (off + tot) / BSIZE < MAXFILE && (off + tot) % BSIZE + m <= BSIZE
    requires Ref(e, t'[inum], Slot((off + tot) / BSIZE)) != 0
    ensures NoHoles(e, t'[inum], Max(t'[inum].size, off + tot + m))
  {
    hide Ref;
    forall bn | 0 <= bn < MAXFILE && bn * BSIZE < Max(t'[inum].size, off + tot + m)
      ensures Ref(e, t'[inum], Slot(bn)) != 0 {
      if bn * BSIZE < Max(t[inum].size, off + tot) {
        assert Ref(d, t[inum], Slot(bn)) != 0;
      } else {
        assert bn == (off + tot) / BSIZE;
      }
    }
  }

  /** A misaligned write starts in a block the file already has, so it allocates nothing there. */
  lemma MapGrow(d1: Disk, d2: Disk, ip0: Inode, ip1: Inode, ip2: Inode, off: nat, tot: nat, c: nat)
    requires (off + tot) / BSIZE == off / BSIZE + c < MAXFILE && off <= ip1.size &&
             NoHoles(d1, ip1, Max(ip1.size, off + tot))
    requires Ref(d2, ip2, Slot(off / BSIZE + c)) != 0
    requires ip0.addrs[NDIRECT] != 0 ==> ip1.addrs[NDIRECT] != 0
    requires ip1.addrs[NDIRECT] != 0 ==> ip2.addrs[NDIRECT] == ip1.addrs[NDIRECT]
    ensures Fresh(d1, ip1, off / BSIZE + c) + MapBound(off, c, ip0, ip1) <= MapBound(off, c + 1, ip0, ip2)
  {
    if c == 0 && off % BSIZE != 0 {
      assert off / BSIZE * BSIZE < ip1.size;
      assert Ref(d1, ip1, Slot(off / BSIZE)) != 0;
    }
  }

  // The state of writei's loop

  datatype Snap = Snap(d: Disk, t: seq<Inode>, logged: set<nat>, maps: set<nat>)

  ghost predicate Progress(s0: Snap, s: Snap, inum: nat, off: nat, src: seq<Byte>,
                           tot: nat, spill: nat, c: nat, failed: bool, data: set<nat>)
  {
    && inum < |s0.t| && off <= s0.t[inum].size && off + |src| <= MAXFILE * BSIZE && tot + spill <= |src|
    && Grows(s0.d, s0.t, s.d, s.t, inum)
    && Patched(s0.d, s0.t, s.d, s.t, inum, off, src[..tot + spill])
    && NoHoles(s.d, s.t[inum], Max(s.t[inum].size, off + tot))
    && Cursor(off, tot, |src|, c, failed)
    && s.logged <= s0.logged + data + Indirect(s.t[inum]) + s.maps && |data| <= c
    && |s.maps| <= |s0.maps| + MapBound(off, c, s0.t[inum], s.t[inum])
  }

  lemma ProgressStart(s: Snap, inum: nat, off: nat, src: seq<Byte>)
    requires inum < |s.t| && !Rejected(s.t[inum], off, |src|) && NoHoles(s.d, s.t[inum], s.t[inum].size)
    ensures Progress(s, s, inum, off, src, 0, 0, 0, false, {})
  {
    PatchedNone(s.d, s.t, inum, off, src);
  }

  lemma Here(s0: Snap, s: Snap, inum: nat, off: nat, src: seq<Byte>, tot: nat, c: nat, data: set<nat>, m: nat)
    requires Progress(s0, s, inum, off, src, tot, 0, c, false, data) && tot < |src|
    requires m == if |src| - tot < BSIZE - (off + tot) % BSIZE then |src| - tot else BSIZE - (off + tot) % BSIZE
    ensures (off + tot) / BSIZE == off / BSIZE + c
    ensures 0 < m <= |src| - tot && (off + tot) % BSIZE + m <= BSIZE && (off + tot) / BSIZE < MAXFILE && inum < |s.t|
  {
    CursorStep(off, tot, |src|, c, m);
  }

  lemma ProgressStep(s0: Snap, s: Snap, s': Snap, inum: nat, off: nat, src: seq<Byte>,
                     tot: nat, c: nat, data: set<nat>, m: nat, k: nat, copied: bool)
    requires Progress(s0, s, inum, off, src, tot, 0, c, false, data) && tot < |src|
    requires m == if |src| - tot < BSIZE - (off + tot) % BSIZE then |src| - tot else BSIZE - (off + tot) % BSIZE
    requires tot + k <= |src| && (if copied then k == m else k < m) && (off + tot) / BSIZE < MAXFILE
    requires Grows(s.d, s.t, s'.d, s'.t, inum) && Patched(s.d, s.t, s'.d, s'.t, inum, off + tot, src[tot..tot + k])
    requires Ref(s'.d, s'.t[inum], Slot((off + tot) / BSIZE)) != 0
    requires s'.logged <= s.logged + {Ref(s'.d, s'.t[inum], Slot((off + tot) / BSIZE))} + Indirect(s'.t[inum]) + s'.maps
    requires s.maps <= s'.maps && |s'.maps| <= |s.maps| + Fresh(s.d, s.t[inum], (off + tot) / BSIZE)
    ensures inum < |s'.t|
    ensures Progress(s0, s', inum, off, src, if copied then tot + m else tot, if copied then 0 else k, c + 1, !copied,
                     data + {Ref(s'.d, s'.t[inum], Slot((off + tot) / BSIZE))})
  {
    hide Ref, Fresh, ByteAt, Patched, NoHoles, Indirect, MapBound;
    CursorStep(off, tot, |src|, c, m);
    GrowsTrans(s0.d, s0.t, s.d, s.t, s'.d, s'.t, inum);
    PatchedMore(s0.d, s0.t, s.d, s.t, s'.d, s'.t, inum, off, src, tot, k);
    NoHolesMore(s.d, s.t, s'.d, s'.t, inum, off, tot, if copied then m else 0);
    ProgressCounts(s0, s, s', inum, off, src, tot, c, data);
    hide Grows, Cursor;
  }

  lemma ProgressCounts(s0: Snap, s: Snap, s': Snap, inum: nat, off: nat, src: seq<Byte>, tot: nat, c: nat,
                       data: set<nat>)
    requires Progress(s0, s, inum, off, src, tot, 0, c, false, data) && tot < |src| && (off + tot) / BSIZE < MAXFILE
    requires Grows(s.d, s.t, s'.d, s'.t, inum) && Ref(s'.d, s'.t[inum], Slot((off + tot) / BSIZE)) != 0
    requires s'.logged <= s.logged + {Ref(s'.d, s'.t[inum], Slot((off + tot) / BSIZE))} + Indirect(s'.t[inum]) + s'.maps
    requires s.maps <= s'.maps && |s'.maps| <= |s.maps| + Fresh(s.d, s.t[inum], (off + tot) / BSIZE)
    ensures s'.logged <= s0.logged + (data + {Ref(s'.d, s'.t[inum], Slot((off + tot) / BSIZE))}) +
                         Indirect(s'.t[inum]) + s'.maps
    ensures |data + {Ref(s'.d, s'.t[inum], Slot((off + tot) / BSIZE))}| <= c + 1
    ensures |s'.maps| <= |s0.maps| + MapBound(off, c + 1, s0.t[inum], s'.t[inum])
  {
    hide Ref, Fresh, ByteAt, Patched, NoHoles;
    if s0.t[inum].addrs[NDIRECT] != 0 { IndirectKept(s0.d, s0.t, s.d, s.t, inum); }
    if s.t[inum].addrs[NDIRECT] != 0 { IndirectKept(s.d, s.t, s'.d, s'.t, inum); }
    MapGrow(s.d, s'.d, s0.t[inum], s.t[inum], s'.t[inum], off, tot, c);
  }

  lemma ProgressEnd(s0: Snap, s: Snap, inum: nat, off: nat, src: seq<Byte>, tot: nat, spill: nat, c: nat, failed: bool,
                    data: set<nat>)
    requires Progress(s0, s, inum, off, src, tot, spill, c, failed, data)
    ensures |s.t| == |s0.t| && inum < |s.t| && Grows(s0.d, s0.t, s.d, s.t, inum)
    ensures Patched(s0.d, s0.t, s.d, s.t, inum, off, src[..tot + spill])
    ensures NoHoles(s.d, s.t[inum], Max(s.t[inum].size, off + tot))
    ensures s.logged <= s0.logged + data + Indirect(s.t[inum]) + s.maps
    ensures |src| <= 3 * BSIZE ==> |data| <= 4 && |data| + |s.maps| <= |s0.maps| + 8
  {
    CursorEnd(off, tot, |src|, c, failed);
  }

  lemma WriteDone(s0: Snap, s1: Snap, s2: Snap, inum: nat, off: nat, tot: nat, bytes: seq<Byte>, data: set<nat>,
                  iblock: nat)
    requires Grows(s0.d, s0.t, s1.d, s1.t, inum) && Patched(s0.d, s0.t, s1.d, s1.t, inum, off, bytes)
    requires forall k :: 0 <= k < |s0.t| ==> NoHoles(s0.d, s0.t[k], s0.t[k].size)
    requires NoHoles(s1.d, s1.t[inum], Max(s1.t[inum].size, off + tot))
    requires SameBytes(s1.d, s1.t, s2.d, s2.t)
    requires Max(s1.t[inum].size, off + tot) < 0x1_0000_0000
    requires s2.t == s1.t[inum := s1.t[inum].(size := Max(s1.t[inum].size, off + tot))]
    requires forall k, s :: 0 <= k < |s2.t| && 0 <= s < SLOTS ==> Ref(s2.d, s2.t[k], s) == Ref(s1.d, s1.t[k], s)
    requires s2.logged == s1.logged + {iblock} && s2.maps == s1.maps
    ensures Patched(s0.d, s0.t, s2.d, s2.t, inum, off, bytes)
    ensures forall k :: 0 <= k < |s2.t| ==> NoHoles(s2.d, s2.t[k], s2.t[k].size)
    ensures s2.t[inum].size == Max(s0.t[inum].size, off + tot)
    ensures forall k :: 0 <= k < |s2.t| && k != inum ==> s2.t[k] == s0.t[k]
    ensures s1.logged <= s0.logged + data + Indirect(s1.t[inum]) + s1.maps ==>
              |s2.logged| <= |s0.logged| + |data| + |s1.maps| + 2
  {
    hide ByteAt, Ref;
    if s1.logged <= s0.logged + data + Indirect(s1.t[inum]) + s1.maps {
      SubsetSize(s2.logged, s0.logged + data + Indirect(s1.t[inum]) + s1.maps + {iblock});
    }
    forall k | 0 <= k < |s2.t| ensures NoHoles(s2.d, s2.t[k], s2.t[k].size) {
      forall bn | 0 <= bn < MAXFILE && bn * BSIZE < s2.t[k].size ensures Ref(s2.d, s2.t[k], Slot(bn)) != 0 {
        if k != inum {
          assert NoHoles(s0.d, s0.t[k], s0.t[k].size);
          assert Ref(s0.d, s0.t[k], Slot(bn)) != 0;
        }
      }
    }
  }

  /** Changing a file's recorded size changes no reference and no byte. */
  lemma Resized(d: Disk, sb: Super, t: seq<Inode>, owner: Owner, inum: nat, size: nat)
    requires Ownership(d, sb, t, owner) && inum < |t| && size <= MAXFILE * BSIZE
    ensures var t' := t[inum := t[inum].(size := size)];
            && Ownership(d, sb, t', owner) && SameBytes(d, t, d, t')
            && forall k, s :: 0 <= k < |t| && 0 <= s < SLOTS ==> Ref(d, t'[k], s) == Ref(d, t[k], s)
  {
    hide GetWord, TestBit, Super.Ok, Super.BBlock, Used;
    var t' := t[inum := t[inum].(size := size)];
    forall k, s | 0 <= k < |t| && 0 <= s < SLOTS ensures Ref(d, t'[k], s) == Ref(d, t[k], s) {
    }
  }

  function Min(a: nat, b: nat): (c: nat) { if a <= b then a else b }

  lemma ReadHere(d: Disk, sb: Super, t: seq<Inode>, owner: Owner, inum: nat, pos: nat)
    requires Ownership(d, sb, t, owner) && inum < |t| && NoHoles(d, t[inum], t[inum].size) && pos < t[inum].size
    ensures pos / BSIZE < MAXFILE
    ensures var r := Ref(d, t[inum], Slot(pos / BSIZE)); r != 0 && r < |d|
  {
    assert pos / BSIZE * BSIZE <= pos;
    AddrOwned(d, sb, t, owner, inum, pos / BSIZE);
  }

  lemma InBlock(pos: nat, i: nat)
    requires pos % BSIZE + i < BSIZE
    ensures (pos + i) / BSIZE == pos / BSIZE && (pos + i) % BSIZE == pos % BSIZE + i
  {
  }

  lemma Append(s: seq<Byte>, off: nat, tot: nat, m: nat)
    requires off + tot + m <= |s|
    ensures s[off..off + tot] + s[off + tot..off + tot + m] == s[off..off + tot + m]
  {
  }

  /** A run of bytes inside one block is that run of the file. */
  lemma ReadBlock(d: Disk, ip: Inode, addr: nat, pos: nat, m: nat)
    requires pos / BSIZE < MAXFILE && addr == Ref(d, ip, Slot(pos / BSIZE)) != 0 && addr < |d|
    requires pos % BSIZE + m <= BSIZE && pos + m <= ip.size
    ensures d[addr][pos % BSIZE..pos % BSIZE + m] == Contents(d, ip)[pos..pos + m]
  {
    hide Ref;
    var a, b := d[addr][pos % BSIZE..pos % BSIZE + m], Contents(d, ip)[pos..pos + m];
    forall i | 0 <= i < |a| ensures a[i] == b[i] {
      InBlock(pos, i);
      assert b[i] == ByteAt(d, ip, pos + i);
    }
  }

  /** After a write, the file is the old prefix, the new bytes and what is left of the old suffix. */
  lemma PatchedContents(d: Disk, t: seq<Inode>, e: Disk, t': seq<Inode>, inum: nat, off: nat, bytes: seq<Byte>)
    requires Patched(d, t, e, t', inum, off, bytes) && inum < |t| && off <= t[inum].size
    requires t'[inum].size == Max(t[inum].size, off + |bytes|)
    ensures var old_ := Contents(d, t[inum]);
            Contents(e, t'[inum]) == old_[..off] + bytes + old_[Min(off + |bytes|, |old_|)..]
  {
    hide ByteAt;
    var old_, new_ := Contents(d, t[inum]), Contents(e, t'[inum]);
    var want := old_[..off] + bytes + old_[Min(off + |bytes|, |old_|)..];
    forall p | 0 <= p < |new_| ensures new_[p] == want[p] {
      assert new_[p] == ByteAt(e, t'[inum], p);
    }
  }

  /** The blocks below the free map, the inodes among them, are untouched. */
  ghost predicate SameLow(d: Disk, e: Disk, sb: Super) {
    |d| == |e| && forall c :: 0 <= c < sb.bmapstart && c < |d| ==> e[c] == d[c]
  }

  lemma AllocatedLow(d: Disk, sb: Super, b: nat)
    requires sb.Ok(d) && sb.datastart <= b < sb.size && !Used(d, sb, b)
    ensures SameLow(d, Allocated(d, sb, b), sb) && sb.bmapstart < sb.datastart
  {
    MapLayout(d, sb, b, b);
    LayoutFacts(d, sb, d);
  }

  lemma TruncatedLow(d0: Disk, sb: Super, owner: Owner, d: Disk, inum: nat, done: set<nat>)
    requires Truncating(d0, sb, owner, d, inum, done)
    ensures SameLow(d0, d, sb)
  {
  }

  /** Inode inum is written back and no other inode block was touched: memory and disk agree again. */
  lemma SyncedAfter(d0: Disk, d1: Disk, sb: Super, t0: seq<Inode>, t: seq<Inode>, inum: nat)
    requires Matches(d0, sb, t0) && sb.Ok(d1) && SameLow(d0, d1, sb) && inum < sb.ninodes && |t0| == |t|
    requires forall k :: 0 <= k < |t| && k != inum ==> t[k] == t0[k]
    ensures inum < |t| && Matches(StoredInode(d1, sb, inum, t[inum]), sb, t)
  {
    hide GetWord, PutWord, PutWords, GetAddrs;
    forall k | 0 <= k < |t| ensures GetInode(StoredInode(d1, sb, inum, t[inum]), sb, k) == t[k] {
      InodeRoundTrip(d1, sb, inum, t[inum], k);
      InodeLayout(d0, sb, k, k);
      assert d1[sb.IBlock(k)] == d0[sb.IBlock(k)];
    }
  }

  /** One transaction: the disk before and after, and the blocks it logged. */
  datatype Step = Step(before: Disk, logged: set<nat>, after: Disk)

  /** steps lead from d to e, each from a sound disk to a sound disk by logged writes alone. */
  ghost predicate Transactions(d: Disk, steps: seq<Step>, e: Disk, sb: Super)
    decreases |steps|
  {
    if steps == [] then d == e && Sound(d, sb)
    else
      var s := steps[|steps| - 1];
      s.after == e && Changed(s.before, e, s.logged, sb) && Sound(e, sb) &&
      Transactions(d, steps[..|steps| - 1], s.before, sb)
  }

  lemma SoundNow(d: Disk, sb: Super, t: seq<Inode>, owner: Owner)
    requires Ownership(d, sb, t, owner) && (forall k :: 0 <= k < |t| ==> NoHoles(d, t[k], t[k].size))
    requires sb.Ok(d) && |t| == sb.ninodes && forall k :: 0 <= k < |t| ==> GetInode(d, sb, k) == t[k]
    ensures Sound(d, sb)
  {
    assert TableOf(d, sb) == t;
    assert SoundWith(d, sb, owner);
  }

  /** No transaction logs more than its reservation, nor more than 7 blocks when there is one free-map block. */
  ghost predicate Bounded(steps: seq<Step>, sb: Super) {
    forall i :: 0 <= i < |steps| ==>
                  |steps[i].logged| <= MAXOPBLOCKS && (sb.size <= BPB ==> |steps[i].logged| <= 7)
  }

  lemma NoneBounded(sb: Super)
    ensures Bounded([], sb)
  {
  }

  lemma BoundedMore(steps: seq<Step>, s: Step, sb: Super)
    requires Bounded(steps, sb) && |s.logged| <= MAXOPBLOCKS && (sb.size <= BPB ==> |s.logged| <= 7)
    ensures Bounded(steps + [s], sb)
  {
  }

  lemma NoTransactions(d: Disk, sb: Super)
    requires Sound(d, sb)
    ensures Transactions(d, [], d, sb)
  {
  }

  lemma OneTransaction(d: Disk, steps: seq<Step>, s: Step, sb: Super)
    requires Sound(s.after, sb)
    ensures Transactions(d, steps, s.before, sb) && Changed(s.before, s.after, s.logged, sb) ==>
              Transactions(d, steps + [s], s.after, sb)
  {
    hide Sound, Changed;
    assert (steps + [s])[..|steps|] == steps;
  }

  /** d turned into e by writing only blocks in s, all of them inode, free-map or data blocks. */
  ghost predicate Changed(d: Disk, e: Disk, s: set<nat>, sb: Super) {
    && |d| == |e|
    && (forall b :: 0 <= b < |d| && b !in s ==> e[b] == d[b])
    && (forall b :: b in s ==> sb.inodestart <= b < |d|)
  }

  lemma LoggedOne(d: Disk, v: Disk, v': Disk, s: set<nat>, sb: Super, b: nat)
    requires sb.inodestart <= b < |v| && |v'| == |v| && v' == v[b := v'[b]]
    ensures Changed(d, v, s, sb) ==> Changed(d, v', s + {b}, sb)
  {
  }

  lemma LoggedTwo(d: Disk, v: Disk, v': Disk, s: set<nat>, sb: Super, b: nat)
    requires sb.Ok(v) && sb.datastart <= b < sb.size && |v'| == |v| && sb.BBlock(b) < |v|
    requires v' == v[sb.BBlock(b) := v'[sb.BBlock(b)]][b := v'[b]]
    ensures Changed(d, v, s, sb) ==> Changed(d, v', s + {sb.BBlock(b), b}, sb)
  {
    AfterInodes(v, sb, b);
    hide Super.Ok, Super.BBlock;
  }

  lemma AfterInodes(d: Disk, sb: Super, b: nat)
    requires sb.Ok(d)
    ensures sb.inodestart <= sb.BBlock(b) && sb.inodestart <= sb.datastart && sb.size <= |d|
  {
  }
}
