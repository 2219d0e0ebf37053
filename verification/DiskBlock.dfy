/** Disk blocks as the file system reads them: BSIZE bytes, seen either as an
    array of little-endian 32-bit words (log header, indirect blocks, inodes)
    or as an array of bits (the free map). */
module DiskBlock {

  const BSIZE: nat := 1024
  const WORDS: nat := BSIZE / 4
  const BPB: nat := BSIZE * 8

  type Byte = x: nat | x < 256
  type Word = w: nat | w < 0x1_0000_0000
  type Block = s: seq<Byte> | |s| == BSIZE witness seq(BSIZE, _ => 0)

  function Zeroes(): (b: Block)
    ensures forall i :: 0 <= i < BSIZE ==> b[i] == 0
    ensures forall j :: 0 <= j < WORDS ==> GetWord(b, j) == 0
  {
    seq(BSIZE, _ => 0)
  }

  // Words

  function GetWord(b: Block, j: nat): (w: Word)
    requires j < WORDS
  {
    b[4 * j] as int + 256 * b[4 * j + 1] as int + 65536 * b[4 * j + 2] as int + 16777216 * b[4 * j + 3] as int
  }

  lemma SplitWord(w: Word)
    ensures w % 256 + 256 * (w / 256 % 256) + 65536 * (w / 65536 % 256) + 16777216 * (w / 16777216) == w
  {
    var q, r := w / 256, w / 65536;
    assert r == q / 256 && w / 16777216 == r / 256;
  }

  function PutWord(b: Block, j: nat, w: Word): (r: Block)
    requires j < WORDS
    ensures GetWord(r, j) == w
    ensures forall k :: 0 <= k < WORDS && k != j ==> GetWord(r, k) == GetWord(b, k)
  {
    SplitWord(w);
    b[..4 * j] + [w % 256, w / 256 % 256, w / 65536 % 256, w / 16777216] + b[4 * j + 4..]
  }

  /** Stores the words ws from word number base on. */
  function PutWords(b: Block, base: nat, ws: seq<nat>): (r: Block)
    requires base + |ws| <= WORDS && forall i :: 0 <= i < |ws| ==> ws[i] < 0x1_0000_0000
    ensures forall i :: 0 <= i < |ws| ==> GetWord(r, base + i) == ws[i]
    ensures forall k :: 0 <= k < WORDS && !(base <= k < base + |ws|) ==> GetWord(r, k) == GetWord(b, k)
    decreases |ws|
  {
    if ws == [] then b
    else PutWord(PutWords(b, base, ws[..|ws| - 1]), base + |ws| - 1, ws[|ws| - 1])
  }

  // Bits: bit i is bit i % 8 of byte i / 8

  /** 1 << k */
  function Mask(k: nat): (m: nat)
    ensures m > 0
  {
    if k == 0 then 1 else 2 * Mask(k - 1)
  }

  /** (x >> k) & 1 */
  predicate BitOf(x: nat, k: nat) {
    if k == 0 then x % 2 == 1 else BitOf(x / 2, k - 1)
  }

  predicate TestBit(b: Block, i: nat)
    requires i < BPB
  {
    BitOf(b[i / 8], i % 8)
  }

  /** Adding the mask of a clear bit sets it and carries into no other bit. */
  lemma {:induction false} AddMask(x: nat, k: nat, j: nat)
    requires !BitOf(x, k)
    ensures BitOf(x + Mask(k), j) == (j == k || BitOf(x, j))
    decreases k + j
  {
    if k > 0 {
      assert (x + Mask(k)) / 2 == x / 2 + Mask(k - 1);
      if j > 0 { AddMask(x / 2, k - 1, j - 1); }
    } else {
      assert (x + 1) / 2 == x / 2;
    }
  }

  /** ... and does not leave the byte. */
  lemma {:induction false} AddMaskFits(x: nat, k: nat, width: nat)
    requires x < Mask(width) && k < width && !BitOf(x, k)
    ensures x + Mask(k) < Mask(width)
  {
    var h, r, half := x / 2, x % 2, Mask(width - 1);
    assert x == 2 * h + r && Mask(width) == 2 * half && h < half;
    if k > 0 {
      AddMaskFits(h, k - 1, width - 1);
      assert Mask(k) == 2 * Mask(k - 1) && h + Mask(k - 1) < half;
    }
  }

  lemma {:induction false} SetMaskLe(x: nat, k: nat)
    requires BitOf(x, k)
    ensures Mask(k) <= x && !BitOf(x - Mask(k), k)
  {
    if k > 0 {
      SetMaskLe(x / 2, k - 1);
      assert (x - Mask(k)) / 2 == x / 2 - Mask(k - 1);
    }
  }

  function SetBit(b: Block, i: nat): (r: Block)
    requires i < BPB && !TestBit(b, i)
    ensures forall k :: 0 <= k < BPB ==> TestBit(r, k) == (k == i || TestBit(b, k))
  {
    AddMaskFits(b[i / 8], i % 8, 8);
    var r := b[i / 8 := b[i / 8] + Mask(i % 8)];
    assert forall k :: 0 <= k < BPB ==> TestBit(r, k) == (k == i || TestBit(b, k)) by {
      forall k | 0 <= k < BPB ensures TestBit(r, k) == (k == i || TestBit(b, k)) {
        AddMask(b[i / 8], i % 8, k % 8);
      }
    }
    r
  }

  function ClearBit(b: Block, i: nat): (r: Block)
    requires i < BPB && TestBit(b, i)
    ensures forall k :: 0 <= k < BPB ==> TestBit(r, k) == (k != i && TestBit(b, k))
  {
    SetMaskLe(b[i / 8], i % 8);
    var x := b[i / 8] - Mask(i % 8);
    var r := b[i / 8 := x];
    assert forall k :: 0 <= k < BPB ==> TestBit(r, k) == (k != i && TestBit(b, k)) by {
      forall k | 0 <= k < BPB ensures TestBit(r, k) == (k != i && TestBit(b, k)) {
        AddMask(x, i % 8, k % 8);
      }
    }
    r
  }
}
