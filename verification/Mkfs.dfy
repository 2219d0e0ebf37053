/** mkfs: the disk it lays out before any file is added is a sound file system with an empty log. */
module Mkfs {
  import opened Params
  import opened DiskBlock
  import opened CrashSafety
  import opened FsSpec
  import C = Consistency
  import F = Fs
  import H = Histories

  const FSMAGIC: nat := 0x10203040

  lemma {:induction false} ZeroBit(k: nat)
    ensures !BitOf(0, k)
  {
    if k > 0 { ZeroBit(k - 1); }
  }

  /** balloc: the first `used` bits are set, and no others. */
  method Balloc(used: nat) returns (buf: Block)
    requires used < BPB
    ensures forall i :: 0 <= i < BPB ==> (TestBit(buf, i) <==> i < used)
  {
    hide BitOf, SetBit;
    buf := Zeroes();
    forall i | 0 <= i < BPB ensures !TestBit(buf, i) { ZeroBit(i % 8); }
    hide TestBit;
    for n := 0 to used
      invariant forall i :: 0 <= i < BPB ==> (TestBit(buf, i) <==> i < n)
    {
      buf := SetBit(buf, n);
    }
  }

  /** The super block mkfs computes for a disk of fssize blocks and this many inodes, and where the log lies. */
  function Geometry(fssize: nat, ninodes: nat): (g: (Super, Layout))
    ensures g.1.start + g.1.size == g.0.inodestart
  {
    var inodestart: nat := 2 + LOGSIZE;
    var bmapstart := inodestart + ninodes / IPB + 1;
    (Super(fssize, ninodes, inodestart, bmapstart, bmapstart + fssize / BPB + 1), Layout(2, LOGSIZE))
  }

  /** The super block as the kernel reads it from block 1: data starts behind the free map. */
  function Read(b: Block): (sb: Super) {
    var size: nat, bmapstart: nat := GetWord(b, 1), GetWord(b, 7);
    Super(size, GetWord(b, 3), GetWord(b, 6), bmapstart, bmapstart + size / BPB + 1)
  }

  /** The super block mkfs writes. */
  function SuperBlock(sb: Super): (b: Block)
    requires sb.datastart <= sb.size < BPB && sb.ninodes < 0x1_0000_0000 && sb.inodestart < BPB && sb.bmapstart < BPB
  {
    PutWords(Zeroes(), 0, [FSMAGIC, sb.size, sb.size - sb.datastart, sb.ninodes, LOGSIZE, 2, sb.inodestart,
                           sb.bmapstart])
  }

  lemma SuperReads(fssize: nat, ninodes: nat)
    requires fssize < BPB && ninodes < 0x1_0000_0000 && Geometry(fssize, ninodes).0.datastart <= fssize
    ensures var (sb, l) := Geometry(fssize, ninodes); var b := SuperBlock(sb);
            Read(b) == sb && GetWord(b, 0) == FSMAGIC && Layout(GetWord(b, 5), GetWord(b, 4)) == l
  {
    hide GetWord;
    var sb := Geometry(fssize, ninodes).0;
    var ws: seq<nat> := [FSMAGIC, sb.size, sb.size - sb.datastart, sb.ninodes, LOGSIZE, 2, sb.inodestart, sb.bmapstart];
    var b := PutWords(Zeroes(), 0, ws);
    assert forall i :: 0 <= i < |ws| ==> GetWord(b, 0 + i) == ws[i];
    assert GetWord(b, 0) == ws[0] && GetWord(b, 1) == ws[1] && GetWord(b, 3) == ws[3] && GetWord(b, 4) == ws[4];
    assert GetWord(b, 5) == ws[5] && GetWord(b, 6) == ws[6] && GetWord(b, 7) == ws[7];
  }

  /** Zeroed blocks, but for a super block and the free map. */
  ghost predicate Blank(d: Disk, sb: Super) {
    && sb.Ok(d)
    && (forall b :: 0 <= b < |d| && b != 1 && b != sb.bmapstart ==> d[b] == Zeroes())
    && (forall b :: 0 <= b < sb.size ==> (Used(d, sb, b) <==> b < sb.datastart))
  }

  lemma BlankInode(d: Disk, sb: Super, k: nat)
    requires Blank(d, sb) && 1 < sb.inodestart && k < sb.ninodes
    ensures GetInode(d, sb, k).size == 0 && forall s :: 0 <= s < SLOTS ==> Ref(d, GetInode(d, sb, k), s) == 0
  {
    hide GetWord, Used;
    assert k / IPB <= sb.ninodes / IPB;
    assert d[sb.IBlock(k)] == Zeroes();
  }

  lemma BlankSound(d: Disk, sb: Super)
    requires Blank(d, sb) && 1 < sb.inodestart
    ensures Sound(d, sb)
  {
    hide GetInode, Used, Ref;
    forall k | 0 <= k < sb.ninodes
      ensures GetInode(d, sb, k).size == 0 && forall s :: 0 <= s < SLOTS ==> Ref(d, GetInode(d, sb, k), s) == 0
    {
      BlankInode(d, sb, k);
    }
    assert SoundWith(d, sb, map[]);
  }

  /** A disk of fewer than BPB blocks has one free map block. */
  lemma OneMapBlock(d: Disk, sb: Super, b: nat)
    requires sb.Ok(d) && b < sb.size < BPB
    ensures Used(d, sb, b) <==> TestBit(d[sb.bmapstart], b)
  {
    hide TestBit;
    assert sb.BBlock(b) == sb.bmapstart && b % BPB == b;
  }

  /** Zeroed blocks become Blank with the super block and the free map in place. */
  lemma LaidOut(d: Disk, sb: Super, l: Layout, super: Block, freemap: Block, e: Disk)
    requires (sb, l) == Geometry(|d|, sb.ninodes) && |d| < BPB && sb.datastart <= |d|
    requires (forall b :: 0 <= b < |d| ==> d[b] == Zeroes()) && e == d[1 := super][sb.bmapstart := freemap]
    requires forall i :: 0 <= i < BPB ==> (TestBit(freemap, i) <==> i < sb.datastart)
    ensures Blank(e, sb) && LogEmpty(l, e) && C.Placed(l, sb, e)
  {
    hide TestBit, GetWord;
    assert sb.Ok(e) && e[l.start] == Zeroes();
    forall b | 0 <= b < sb.size ensures Used(e, sb, b) <==> b < sb.datastart { OneMapBlock(e, sb, b); }
    hide Used;
  }

  /** mkfs up to its first ialloc, and the final balloc with no block given to a file. */
  method Format(fssize: nat, ninodes: nat) returns (d: Disk, sb: Super, l: Layout)
    requires fssize < BPB && ninodes < 0x1_0000_0000 && Geometry(fssize, ninodes).0.datastart <= fssize
    ensures (sb, l) == Geometry(fssize, ninodes) && |d| == fssize
    ensures Sound(d, sb) && LogEmpty(l, d) && C.Placed(l, sb, d)
    ensures forall b :: 0 <= b < fssize ==> (Used(d, sb, b) <==> b < sb.datastart)
    ensures Read(d[1]) == sb && GetWord(d[1], 0) == FSMAGIC && Layout(GetWord(d[1], 5), GetWord(d[1], 4)) == l
  {
    hide TestBit, GetWord, SuperBlock, Sound, Blank, Zeroes, Read;
    sb, l := Geometry(fssize, ninodes).0, Geometry(fssize, ninodes).1;
    d := [];
    for i := 0 to fssize
      invariant |d| == i && forall b :: 0 <= b < i ==> d[b] == Zeroes()
    {
      d := d + [Zeroes()];
    }
    ghost var zeroed := d;
    var super := SuperBlock(sb);
    SuperReads(fssize, ninodes);
    d := d[1 := super];
    var freemap := Balloc(sb.datastart);
    d := d[sb.bmapstart := freemap];
    LaidOut(zeroed, sb, l, super, freemap, d);
    BlankMap(d, sb);
    BlankSound(d, sb);
  }

  lemma BlankMap(d: Disk, sb: Super)
    requires Blank(d, sb)
    ensures sb.Ok(d) && forall b :: 0 <= b < sb.size ==> (Used(d, sb, b) <==> b < sb.datastart)
  {
  }

  // writei and the log

  lemma NothingYet(d: Disk, sb: Super, t: seq<Inode>, owner: Owner, k: nat)
    requires Ownership(d, sb, t, owner) && k < |t| && forall b :: 0 <= b < sb.size ==>
                                                                    (Used(d, sb, b) <==> b < sb.datastart)
    ensures ByteAt(d, t[k], 0) == 0
  {
    if Ref(d, t[k], Slot(0)) != 0 { F.AddrOwned(d, sb, t, owner, k, 0); }
  }

  lemma GrownWhole(d: Disk, t: seq<Inode>, e: Disk, t': seq<Inode>, inum: nat)
    requires F.Grows(d, t, e, t', inum) && forall k :: 0 <= k < |t| ==> NoHoles(d, t[k], t[k].size)
    ensures forall k :: 0 <= k < |t'| ==> NoHoles(e, t'[k], t'[k].size)
  {
    hide Ref;
    forall k | 0 <= k < |t'| ensures NoHoles(e, t'[k], t'[k].size) { assert NoHoles(d, t[k], t[k].size); }
  }

  /** The spilled byte differs from the one in the file, whose block is there. */
  lemma NotCovered(d: Disk, ip: Inode)
    requires Ref(d, ip, Slot(0)) != 0 && ByteAt(d, ip, 0) == 0
    ensures !F.Covered(d, ip, 0, [7, 7], 0, 1) && F.AllThere(d, ip, 0, 2) && !F.Rejected(ip, 0, 2)
  {
    hide Ref, ByteAt;
    assert F.Reach(0, 0, 2) == 0 && F.Spill(0, 0, 1, 2) == 1;
    assert [7, 7][0] != ByteAt(d, ip, 0 + 0);
  }

  /** bmap gives file 1 its first block, and the transaction is committed. */
  method FirstBlock(fs: F.FileSystem)
    requires fs.Whole() && fs.Settled() && fs.logged == {} && fs.leaked == {} && 1 < |fs.inode|
    requires !AllUsed(fs.view, fs.sb) && ByteAt(fs.view, fs.inode[1], 0) == 0
    modifies fs
    ensures fs.Whole() && fs.Settled() && fs.logged == {} && fs.leaked == {} && 1 < |fs.inode|
    ensures Ref(fs.view, fs.inode[1], Slot(0)) != 0 && ByteAt(fs.view, fs.inode[1], 0) == 0
  {
    hide Ownership, NoHoles, Ref, ByteAt, AllUsed, F.Changed, F.Harmless, F.Overlay, F.SameLow, F.Indirect, F.Fresh;
    ghost var d, t0 := fs.view, fs.inode;
    var addr, ok := fs.Bmap(1, 0);
    GrownWhole(d, t0, fs.view, fs.inode, 1);
    var step := fs.Commit();
  }

  /** A new file system in which file 1 has its first block. */
  method OneBlockFile() returns (fs: F.FileSystem)
    ensures fresh(fs) && fs.Whole() && fs.Settled() && fs.logged == {} && fs.leaked == {} && 1 < |fs.inode|
    ensures Ref(fs.view, fs.inode[1], Slot(0)) != 0 && ByteAt(fs.view, fs.inode[1], 0) == 0
  {
    hide Ownership, Sound, GetInode, NoHoles, Ref, ByteAt, AllUsed, F.Changed, F.Harmless, Used, Super.Ok, F.InMaps,
         LogEmpty, C.Placed;
    var d, sb, l := Format(1000, 200);
    fs := H.Mount(sb, d);
    F.MetaUsed(d, sb, fs.inode, fs.owner);
    OneFree(d, sb);
    NothingYet(d, sb, fs.inode, fs.owner, 1);
    FirstBlock(fs);
  }

  /** writei can release a changed buffer that was not logged: two bytes are written to a block the file has, the copy
      fails after the first. */
  method UnloggedWrite() returns (fs: F.FileSystem)
    ensures fresh(fs) && fs.Whole() && fs.Settled() && !fs.Logs()
  {
    hide Ownership, NoHoles, Ref, ByteAt, GetInode, F.Changed, F.Harmless, F.Covered, F.AllThere, F.Rejected,
         F.Patched, AllUsed;
    fs := OneBlockFile();
    NotCovered(fs.view, fs.inode[1]);
    var r, ok;
    ghost var spill;
    r, ok, spill := fs.Writei(1, 0, [7, 7], 0, 1);
  }

  lemma OneFree(d: Disk, sb: Super)
    requires sb == Geometry(1000, 200).0 && sb.Ok(d) && forall b :: 0 <= b < 1000 ==>
                                                                      (Used(d, sb, b) <==> b < sb.datastart)
    ensures !AllUsed(d, sb)
  {
    assert !Used(d, sb, 999);
  }
}
