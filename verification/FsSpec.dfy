/** The on-disk file system as a value: inodes, block references, the free map, and who
    owns which block. */
module FsSpec {
  import opened DiskBlock
  import opened CrashSafety

  const NDIRECT: nat := 12
  const NINDIRECT: nat := WORDS
  const MAXFILE: nat := NDIRECT + NINDIRECT
  const IPB: nat := 16                       // 64-byte dinodes per block
  const SLOTS: nat := NDIRECT + 1 + NINDIRECT // references one inode can hold

  /** The super block. Inode blocks, then the free map, then data from datastart. */
  datatype Super = Super(size: nat, ninodes: nat, inodestart: nat, bmapstart: nat, datastart: nat) {
    function IBlock(inum: nat): (b: nat) { inum / IPB + inodestart }

    function BBlock(b: nat): (m: nat) { b / BPB + bmapstart }

    predicate Ok(d: Disk) {
      && size <= |d| && size < 0x1_0000_0000 && 0 < datastart <= size
      && inodestart + ninodes / IPB + 1 <= bmapstart
      && bmapstart + size / BPB + 1 <= datastart
    }
  }

  /** A dinode: type and major, minor and nlink (packed as on disk), size, addrs. */
  datatype Dinode = Dinode(kind: Word, links: Word, size: Word, addrs: seq<Word>)

  type Inode = ip: Dinode | |ip.addrs| == NDIRECT + 1 witness Dinode(0, 0, 0, seq(NDIRECT + 1, _ => 0))

  function InodeWords(ip: Inode): (ws: seq<nat>)
    ensures |ws| == IPB && forall i :: 0 <= i < |ws| ==> ws[i] < 0x1_0000_0000
  {
    [ip.kind, ip.links, ip.size] + ip.addrs
  }

  function GetAddrs(b: Block, w: nat, n: nat): (r: seq<Word>)
    requires w + n <= WORDS
    ensures |r| == n && forall i :: 0 <= i < n ==> r[i] == GetWord(b, w + i)
  {
    if n == 0 then [] else GetAddrs(b, w, n - 1) + [GetWord(b, w + n - 1)]
  }

  function GetInode(d: Disk, sb: Super, inum: nat): (ip: Inode)
    requires sb.Ok(d) && inum < sb.ninodes
  {
    var b, w := d[sb.IBlock(inum)], IPB * (inum % IPB);
    Dinode(GetWord(b, w), GetWord(b, w + 1), GetWord(b, w + 2), GetAddrs(b, w + 3, NDIRECT + 1))
  }

  // References: slots 0..11 are direct, slot 12 is the indirect block, the rest its entries

  function Ref(d: Disk, ip: Inode, s: nat): (r: Word)
    requires s < SLOTS
  {
    if s <= NDIRECT then ip.addrs[s]
    else if ip.addrs[NDIRECT] == 0 || ip.addrs[NDIRECT] >= |d| then 0
    else GetWord(d[ip.addrs[NDIRECT]], s - NDIRECT - 1)
  }

  /** The slot of file block bn. */
  function Slot(bn: nat): (s: nat)
    requires bn < MAXFILE
    ensures s < SLOTS && s != NDIRECT
  {
    if bn < NDIRECT then bn else bn + 1
  }

  predicate Used(d: Disk, sb: Super, b: nat)
    requires sb.Ok(d) && b < sb.size
  {
    TestBit(d[sb.BBlock(b)], b % BPB)
  }

  ghost predicate AllUsed(d: Disk, sb: Super) {
    sb.Ok(d) && forall c :: 0 <= c < sb.size ==> Used(d, sb, c)
  }

  /** owner names, for each allocated data block, the one reference to it. */
  type Owner = map<nat, (nat, nat)>

  ghost predicate Table(table: seq<Inode>, sb: Super) {
    |table| == sb.ninodes && forall k :: 0 <= k < |table| ==> table[k].size <= MAXFILE * BSIZE
  }

  /** Every reference is to a block of its own. */
  ghost predicate RefsOwned(d: Disk, table: seq<Inode>, owner: Owner)
  {
    forall k, s :: 0 <= k < |table| && 0 <= s < SLOTS && Ref(d, table[k], s) != 0 ==>
      Ref(d, table[k], s) in owner && owner[Ref(d, table[k], s)] == (k, s)
  }

  /** The owned blocks are exactly the data blocks the free map marks used. */
  ghost predicate OwnedUsed(d: Disk, sb: Super, table: seq<Inode>, owner: Owner)
    requires sb.Ok(d)
  {
    && (forall b :: b in owner ==>
          && sb.datastart <= b < sb.size && Used(d, sb, b)
          && owner[b].0 < |table| && owner[b].1 < SLOTS && Ref(d, table[owner[b].0], owner[b].1) == b)
    && (forall b :: 0 <= b < sb.size && Used(d, sb, b) ==> b < sb.datastart || b in owner)
    && (forall b :: 0 <= b < sb.datastart ==> Used(d, sb, b))
  }

  ghost predicate Ownership(d: Disk, sb: Super, table: seq<Inode>, owner: Owner) {
    sb.Ok(d) && Table(table, sb) && RefsOwned(d, table, owner) && OwnedUsed(d, sb, table, owner)
  }

  /** No block below the file's size is missing. */
  ghost predicate NoHoles(d: Disk, ip: Inode, size: nat)
  {
    forall bn :: 0 <= bn < MAXFILE && bn * BSIZE < size ==> Ref(d, ip, Slot(bn)) != 0
  }

  /** What Ownership says without naming owners: references are pairwise distinct data
      blocks, and the free map marks exactly the metadata and the referenced blocks. */
  lemma OwnershipMeans(d: Disk, sb: Super, table: seq<Inode>, owner: Owner)
    requires Ownership(d, sb, table, owner)
    ensures forall k, s, k', s' :: 0 <= k < |table| && 0 <= s < SLOTS && 0 <= k' < |table| && 0 <= s' < SLOTS ==>
              Ref(d, table[k], s) == Ref(d, table[k'], s') != 0 ==> k == k' && s == s'
    ensures forall b :: 0 <= b < sb.size ==>
              (Used(d, sb, b) <==> b < sb.datastart || exists k, s :: 0 <= k < |table| && 0 <= s < SLOTS &&
                                                                      Ref(d, table[k], s) == b)
  {
    forall b | 0 <= b < sb.size
      ensures Used(d, sb, b) <==> b < sb.datastart || exists k, s :: 0 <= k < |table| && 0 <= s < SLOTS &&
                                                                     Ref(d, table[k], s) == b
    {
      if b in owner { assert Ref(d, table[owner[b].0], owner[b].1) == b; }
    }
  }

  // Adding one reference

  /** balloc's effect: the bit is set, the block zeroed. */
  function Allocated(d: Disk, sb: Super, b: nat): (r: Disk)
    requires sb.Ok(d) && b < sb.size && !Used(d, sb, b)
    ensures |r| == |d|
  {
    d[sb.BBlock(b) := SetBit(d[sb.BBlock(b)], b % BPB)][b := Zeroes()]
  }

  /** The free map lies below the data, and no two blocks share a bit of it. */
  lemma MapLayout(d: Disk, sb: Super, b: nat, c: nat)
    requires sb.Ok(d) && b < sb.size && c < sb.size
    ensures sb.bmapstart <= sb.BBlock(b) < sb.datastart <= sb.size <= |d| && sb.size < 0x1_0000_0000
    ensures sb.BBlock(b) == sb.BBlock(c) && b % BPB == c % BPB ==> b == c
  {
  }

  lemma AllocatedBit(d: Disk, sb: Super, b: nat, c: nat)
    requires sb.Ok(d) && sb.datastart <= b < sb.size && !Used(d, sb, b) && c < sb.size
    ensures Used(Allocated(d, sb, b), sb, c) == (c == b || Used(d, sb, c))
  {
    hide BitOf, TestBit, SetBit, Super.BBlock, Super.Ok;
    MapLayout(d, sb, b, c);
    MapLayout(d, sb, c, b);
    var m := d[sb.BBlock(b)];
    assert TestBit(SetBit(m, b % BPB), c % BPB) == (c % BPB == b % BPB || TestBit(m, c % BPB));
  }

  lemma AllocatedBits(d: Disk, sb: Super, b: nat)
    requires sb.Ok(d) && sb.datastart <= b < sb.size && !Used(d, sb, b)
    ensures forall c :: 0 <= c < sb.size ==> Used(Allocated(d, sb, b), sb, c) == (c == b || Used(d, sb, c))
  {
    forall c | 0 <= c < sb.size ensures Used(Allocated(d, sb, b), sb, c) == (c == b || Used(d, sb, c)) {
      AllocatedBit(d, sb, b, c);
    }
  }

  /** If exactly one reference appears, to a block that was free, ownership extends to it. */
  lemma AddReference(d: Disk, table: seq<Inode>, e: Disk, table': seq<Inode>, sb: Super, owner: Owner, inum: nat,
                     slot: nat, b: nat)
    requires Ownership(d, sb, table, owner) && sb.Ok(e) && Table(table', sb)
    requires inum < |table| && slot < SLOTS && sb.datastart <= b < sb.size && !Used(d, sb, b)
    requires forall c :: 0 <= c < sb.size ==> Used(e, sb, c) == (c == b || Used(d, sb, c))
    requires Ref(d, table[inum], slot) == 0 && Ref(e, table'[inum], slot) == b
    requires forall k, s :: 0 <= k < |table| && 0 <= s < SLOTS && (k != inum || s != slot) ==>
               Ref(e, table'[k], s) == Ref(d, table[k], s)
    ensures Ownership(e, sb, table', owner[b := (inum, slot)])
  {
  }

  // File contents

  /** Byte p of the file, 0 where no block is allocated. */
  function ByteAt(d: Disk, ip: Inode, p: nat): (x: Byte) {
    if p / BSIZE >= MAXFILE then 0
    else
      var r := Ref(d, ip, Slot(p / BSIZE));
      if r == 0 || r >= |d| then 0 else d[r][p % BSIZE]
  }

  function Contents(d: Disk, ip: Inode): (s: seq<Byte>)
    ensures |s| == ip.size && forall p :: 0 <= p < |s| ==> s[p] == ByteAt(d, ip, p)
  {
    seq(ip.size, p requires p >= 0 => ByteAt(d, ip, p))
  }

  /** No file reads differently. */
  ghost predicate SameBytes(d: Disk, table: seq<Inode>, e: Disk, table': seq<Inode>) {
    |table| == |table'| && forall k, p: nat :: 0 <= k < |table| ==> ByteAt(e, table'[k], p) == ByteAt(d, table[k], p)
  }

  function SetAddr(ip: Inode, s: nat, b: Word): (r: Inode)
    requires s <= NDIRECT
  {
    ip.(addrs := ip.addrs[s := b])
  }

  /** An indirect block is a data block of its inode, so neither the free map nor a free block. */
  lemma IndirectOwned(d: Disk, sb: Super, table: seq<Inode>, owner: Owner, k: nat)
    requires Ownership(d, sb, table, owner) && k < |table| && table[k].addrs[NDIRECT] != 0
    ensures var r := table[k].addrs[NDIRECT];
            r in owner && owner[r] == (k, NDIRECT) && sb.datastart <= r < sb.size <= |d| && Used(d, sb, r)
  {
    assert Ref(d, table[k], NDIRECT) == table[k].addrs[NDIRECT];
  }

  /** bmap puts a fresh block in a direct slot, or makes a fresh block the indirect block. */
  lemma FillAddr(d: Disk, sb: Super, table: seq<Inode>, owner: Owner, inum: nat, slot: nat, b: nat)
    requires Ownership(d, sb, table, owner) && inum < |table| && slot <= NDIRECT && table[inum].addrs[slot] == 0
    requires sb.datastart <= b < sb.size && !Used(d, sb, b)
    ensures var e, table' := Allocated(d, sb, b), table[inum := SetAddr(table[inum], slot, b)];
            && Ownership(e, sb, table', owner[b := (inum, slot)])
            && SameBytes(d, table, e, table')
            && (forall k, s :: 0 <= k < |table| && 0 <= s < SLOTS && (k != inum || s != slot) ==>
                  Ref(e, table'[k], s) == Ref(d, table[k], s))
  {
    hide BitOf, TestBit, SetBit, GetWord, Super.BBlock;
    var e, table' := Allocated(d, sb, b), table[inum := SetAddr(table[inum], slot, b)];
    MapLayout(d, sb, b, b);
    AllocatedBits(d, sb, b);
    forall k, s | 0 <= k < |table| && 0 <= s < SLOTS && (k != inum || s != slot)
      ensures Ref(e, table'[k], s) == Ref(d, table[k], s)
    {
      if s > NDIRECT && table[k].addrs[NDIRECT] != 0 { IndirectOwned(d, sb, table, owner, k); }
    }
    AddReference(d, table, e, table', sb, owner, inum, slot, b);
    FreshReadsZero(d, table, e, table', sb, owner, inum, slot, b);
  }

  /** A reference added to a zeroed block does not change what the files read. */
  lemma FreshReadsZero(d: Disk, table: seq<Inode>, e: Disk, table': seq<Inode>, sb: Super, owner: Owner, inum: nat,
                       slot: nat, b: nat)
    requires Ownership(d, sb, table, owner) && |table'| == |table| && |e| == |d| && b < |d| && e[b] == Zeroes()
    requires inum < |table| && slot < SLOTS && Ref(d, table[inum], slot) == 0 && Ref(e, table'[inum], slot) == b
    requires forall c :: c in owner && owner[c].1 != NDIRECT ==> e[c] == d[c]
    requires forall k, s :: 0 <= k < |table| && 0 <= s < SLOTS && (k != inum || s != slot) ==>
               Ref(e, table'[k], s) == Ref(d, table[k], s)
    ensures SameBytes(d, table, e, table')
  {
    forall k, p: nat | 0 <= k < |table| ensures ByteAt(e, table'[k], p) == ByteAt(d, table[k], p) {
      if p / BSIZE < MAXFILE {
        var s := Slot(p / BSIZE);
        var r := Ref(d, table[k], s);
        if r != 0 { assert r in owner && owner[r] == (k, s); }
      }
    }
  }

  /** The disk after bmap put fresh block b in entry j of the indirect block. */
  function EntryFilled(d: Disk, sb: Super, ind: nat, j: nat, b: Word): (e: Disk)
    requires sb.Ok(d) && b < sb.size && !Used(d, sb, b) && ind < |d| && j < NINDIRECT
    ensures |e| == |d|
  {
    Allocated(d, sb, b)[ind := PutWord(d[ind], j, b)]
  }

  lemma EntryRefs(d: Disk, sb: Super, table: seq<Inode>, owner: Owner, inum: nat, j: nat, b: nat, k: nat, s: nat)
    requires Ownership(d, sb, table, owner) && inum < |table| && j < NINDIRECT && table[inum].addrs[NDIRECT] != 0
    requires sb.datastart <= b < sb.size && !Used(d, sb, b) && k < |table| && s < SLOTS
    ensures var ind := table[inum].addrs[NDIRECT];
            && ind < |d| && ind != b && Allocated(d, sb, b)[ind] == d[ind]
            && Ref(EntryFilled(d, sb, ind, j, b), table[k], s) ==
                 if k == inum && s == NDIRECT + 1 + j then b else Ref(d, table[k], s)
  {
    hide BitOf, TestBit, SetBit, GetWord, PutWord, Super.BBlock;
    IndirectOwned(d, sb, table, owner, inum);
    MapLayout(d, sb, b, b);
    if s > NDIRECT && table[k].addrs[NDIRECT] != 0 { IndirectOwned(d, sb, table, owner, k); }
  }

  lemma EntryBits(d: Disk, sb: Super, ind: nat, j: nat, b: nat, c: nat)
    requires sb.Ok(d) && sb.datastart <= b < sb.size && !Used(d, sb, b) && sb.datastart <= ind < sb.size &&
             j < NINDIRECT && c < sb.size
    ensures Used(EntryFilled(d, sb, ind, j, b), sb, c) == (c == b || Used(d, sb, c))
  {
    hide BitOf, TestBit, SetBit, GetWord, PutWord, Super.BBlock, Super.Ok;
    MapLayout(d, sb, c, b);
    AllocatedBit(d, sb, b, c);
    LayoutFacts(d, sb, Allocated(d, sb, b));
    LayoutFacts(d, sb, EntryFilled(d, sb, ind, j, b));
  }

  /** bmap puts a fresh block in an entry of the indirect block. */
  lemma FillEntry(d: Disk, sb: Super, table: seq<Inode>, owner: Owner, inum: nat, j: nat, b: nat)
    requires Ownership(d, sb, table, owner) && inum < |table| && j < NINDIRECT && table[inum].addrs[NDIRECT] != 0
    requires Ref(d, table[inum], NDIRECT + 1 + j) == 0
    requires sb.datastart <= b < sb.size && !Used(d, sb, b)
    ensures var ind := table[inum].addrs[NDIRECT];
            && ind < |d| && ind != b && Allocated(d, sb, b)[ind] == d[ind]
            && var e := EntryFilled(d, sb, ind, j, b);
               && Ownership(e, sb, table, owner[b := (inum, NDIRECT + 1 + j)])
               && SameBytes(d, table, e, table)
               && (forall k, s :: 0 <= k < |table| && 0 <= s < SLOTS ==>
                     Ref(e, table[k], s) == if k == inum && s == NDIRECT + 1 + j then b else Ref(d, table[k], s))
  {
    hide BitOf, TestBit, SetBit, GetWord, PutWord, Super.BBlock, Super.Ok, Used;
    var slot := NDIRECT + 1 + j;
    var ind := table[inum].addrs[NDIRECT];
    IndirectOwned(d, sb, table, owner, inum);
    MapLayout(d, sb, b, b);
    var e := EntryFilled(d, sb, ind, j, b);
    LayoutFacts(d, sb, e);
    forall k, s | 0 <= k < |table| && 0 <= s < SLOTS
      ensures Ref(e, table[k], s) == if k == inum && s == slot then b else Ref(d, table[k], s)
    {
      EntryRefs(d, sb, table, owner, inum, j, b, k, s);
    }
    forall c | 0 <= c < sb.size ensures Used(e, sb, c) == (c == b || Used(d, sb, c)) {
      EntryBits(d, sb, ind, j, b, c);
    }
    EntryRefs(d, sb, table, owner, inum, j, b, inum, slot);
    AddReference(d, table, e, table, sb, owner, inum, slot, b);
    FreshReadsZero(d, table, e, table, sb, owner, inum, slot, b);
  }

  /** Storing x in a file's data block changes that block of that file, and nothing else anywhere. */
  lemma StoreBlock(d: Disk, sb: Super, table: seq<Inode>, owner: Owner, a: nat, x: Block)
    requires Ownership(d, sb, table, owner) && a in owner && owner[a].1 != NDIRECT
    ensures a < |d| && owner[a].0 < |table|
    ensures Ownership(d[a := x], sb, table, owner)
    ensures forall k, s :: 0 <= k < |table| && 0 <= s < SLOTS ==> Ref(d[a := x], table[k], s) == Ref(d, table[k], s)
    ensures forall k, p: nat :: 0 <= k < |table| ==>
              ByteAt(d[a := x], table[k], p) ==
                if p / BSIZE < MAXFILE && owner[a] == (k, Slot(p / BSIZE)) then x[p % BSIZE] else ByteAt(d, table[k], p)
  {
    hide BitOf, TestBit, GetWord, Super.BBlock;
    var e := d[a := x];
    forall k, s | 0 <= k < |table| && 0 <= s < SLOTS ensures Ref(e, table[k], s) == Ref(d, table[k], s) {
      if s > NDIRECT && table[k].addrs[NDIRECT] != 0 { IndirectOwned(d, sb, table, owner, k); }
    }
    forall c | 0 <= c < sb.size ensures Used(e, sb, c) == Used(d, sb, c) { MapLayout(d, sb, c, c); }
    forall k, p: nat | 0 <= k < |table|
      ensures ByteAt(e, table[k], p) ==
                if p / BSIZE < MAXFILE && owner[a] == (k, Slot(p / BSIZE)) then x[p % BSIZE] else ByteAt(d, table[k], p)
    {
      if p / BSIZE < MAXFILE {
        var s := Slot(p / BSIZE);
        if Ref(d, table[k], s) != 0 { assert owner[Ref(d, table[k], s)] == (k, s); }
      }
    }
  }

  // The inode on disk

  function StoredInode(d: Disk, sb: Super, inum: nat, ip: Inode): (r: Disk)
    requires sb.Ok(d) && inum < sb.ninodes
    ensures |r| == |d|
  {
    d[sb.IBlock(inum) := PutWords(d[sb.IBlock(inum)], IPB * (inum % IPB), InodeWords(ip))]
  }

  lemma InodeLayout(d: Disk, sb: Super, inum: nat, k: nat)
    requires sb.Ok(d) && inum < sb.ninodes && k < sb.ninodes
    ensures sb.IBlock(inum) < sb.bmapstart && IPB * (inum % IPB) + IPB <= WORDS
    ensures k != inum && sb.IBlock(k) == sb.IBlock(inum) ==>
              IPB * (k % IPB) + IPB <= IPB * (inum % IPB) || IPB * (inum % IPB) + IPB <= IPB * (k % IPB)
  {
    if k != inum && sb.IBlock(k) == sb.IBlock(inum) {
      assert k % IPB != inum % IPB;
    }
  }

  /** iupdate then ilock reads back the same inode, and leaves every other inode alone. */
  lemma InodeRoundTrip(d: Disk, sb: Super, inum: nat, ip: Inode, k: nat)
    requires sb.Ok(d) && inum < sb.ninodes && k < sb.ninodes
    ensures GetInode(StoredInode(d, sb, inum, ip), sb, k) == if k == inum then ip else GetInode(d, sb, k)
  {
    hide GetWord, PutWord, PutWords, Super.IBlock;
    InodeLayout(d, sb, inum, k);
    InodeLayout(d, sb, k, inum);
    var e := StoredInode(d, sb, inum, ip);
    if sb.IBlock(k) == sb.IBlock(inum) {
      var w, v := IPB * (inum % IPB), IPB * (k % IPB);
      var b, x := d[sb.IBlock(inum)], e[sb.IBlock(inum)];
      var ws := InodeWords(ip);
      if k == inum {
        assert forall i :: 0 <= i < IPB ==> GetWord(x, w + i) == ws[i];
        assert GetWord(x, w + 0) == ws[0] && GetWord(x, w + 1) == ws[1] && GetWord(x, w + 2) == ws[2];
        forall i | 0 <= i <= NDIRECT ensures GetWord(x, w + 3 + i) == ip.addrs[i] {
          assert GetWord(x, w + (3 + i)) == ws[3 + i];
        }
        assert GetInode(e, sb, k).addrs == ip.addrs;
      } else {
        assert forall j :: v <= j < v + IPB ==> GetWord(x, j) == GetWord(b, j);
        assert GetInode(e, sb, k).addrs == GetInode(d, sb, k).addrs;
      }
    }
  }

  /** Writing an inode block touches no reference, no free-map bit and no file. */
  lemma InodeBlockSeparate(d: Disk, sb: Super, table: seq<Inode>, owner: Owner, inum: nat, x: Block)
    requires Ownership(d, sb, table, owner) && inum < sb.ninodes
    ensures sb.IBlock(inum) < |d|
    ensures var e := d[sb.IBlock(inum) := x];
            && Ownership(e, sb, table, owner) && SameBytes(d, table, e, table)
            && forall k, s :: 0 <= k < |table| && 0 <= s < SLOTS ==> Ref(e, table[k], s) == Ref(d, table[k], s)
  {
    InodeLayout(d, sb, inum, inum);
    LowWriteRefs(d, sb, table, owner, sb.IBlock(inum), x);
    LowWriteBytes(d, sb, table, owner, sb.IBlock(inum), x);
  }

  lemma LayoutFacts(d: Disk, sb: Super, e: Disk)
    requires sb.Ok(d) && |e| == |d|
    ensures sb.Ok(e) && sb.bmapstart < sb.datastart <= sb.size <= |d|
  {
  }

  lemma LowWriteRefs(d: Disk, sb: Super, table: seq<Inode>, owner: Owner, m: nat, x: Block)
    requires Ownership(d, sb, table, owner) && m < sb.bmapstart
    ensures m < |d|
    ensures forall k, s :: 0 <= k < |table| && 0 <= s < SLOTS ==> Ref(d[m := x], table[k], s) == Ref(d, table[k], s)
    ensures Ownership(d[m := x], sb, table, owner)
  {
    hide BitOf, TestBit, GetWord, Super.BBlock, Super.Ok;
    LayoutFacts(d, sb, d);
    var e := d[m := x];
    LayoutFacts(d, sb, e);
    forall k, s | 0 <= k < |table| && 0 <= s < SLOTS ensures Ref(e, table[k], s) == Ref(d, table[k], s) {
      if s > NDIRECT && table[k].addrs[NDIRECT] != 0 { IndirectOwned(d, sb, table, owner, k); }
    }
    forall c | 0 <= c < sb.size ensures Used(e, sb, c) == Used(d, sb, c) { MapLayout(d, sb, c, c); }
  }

  lemma LowWriteBytes(d: Disk, sb: Super, table: seq<Inode>, owner: Owner, m: nat, x: Block)
    requires Ownership(d, sb, table, owner) && m < sb.bmapstart && m < |d|
    requires forall k, s :: 0 <= k < |table| && 0 <= s < SLOTS ==> Ref(d[m := x], table[k], s) == Ref(d, table[k], s)
    ensures SameBytes(d, table, d[m := x], table)
  {
    hide BitOf, TestBit, Used, GetWord, Super.BBlock, Super.Ok;
    LayoutFacts(d, sb, d);
    var e := d[m := x];
    forall k, p: nat | 0 <= k < |table| ensures ByteAt(e, table[k], p) == ByteAt(d, table[k], p) {
      if p / BSIZE < MAXFILE {
        var r := Ref(d, table[k], Slot(p / BSIZE));
        if r != 0 { assert r in owner; }
      }
    }
  }

  // What the disk says on its own, without the inodes in memory

  function TableOf(d: Disk, sb: Super): (t: seq<Inode>)
    requires sb.Ok(d)
    ensures |t| == sb.ninodes && forall k :: 0 <= k < |t| ==> t[k] == GetInode(d, sb, k)
  {
    seq(sb.ninodes, k requires 0 <= k < sb.ninodes => GetInode(d, sb, k))
  }

  ghost predicate SoundWith(d: Disk, sb: Super, owner: Owner) {
    && sb.Ok(d) && Ownership(d, sb, TableOf(d, sb), owner)
    && forall k :: 0 <= k < sb.ninodes ==> NoHoles(d, TableOf(d, sb)[k], TableOf(d, sb)[k].size)
  }

  /** The inodes on disk own distinct blocks, exactly those marked used, and no file has a hole. */
  ghost predicate Sound(d: Disk, sb: Super) {
    exists owner :: SoundWith(d, sb, owner)
  }
}
