/** The virtio disk driver and its device: descriptors, the available and used rings with their
    16-bit indices, and the requests in flight (sections 2.6 and 5.2 of VIRTIO 1.1). Each method
    is one stretch of the driver under vdisk_lock, or one step of the device; a run is any
    sequence of them. */
module Virtio {
  import opened Collections

  const NUM := 8
  const WRAP := 0x1_0000

  /** What a descriptor points at. */
  datatype Addr = Null | OpOf(i: nat) | DataOf(b: nat) | StatusOf(i: nat)

  datatype Desc = Desc(addr: Addr, len: nat, hasNext: bool, deviceWrites: bool, next: nat)

  const ZERO := Desc(Null, 0, false, false, 0)

  datatype Op = Op(write: bool, sector: nat)

  datatype Info = Info(b: Option<nat>, status: nat)

  /** A request: made available, being worked on, in the used ring, seen by the interrupt handler. */
  datatype Phase = Posted | Taken | Used | Done

  datatype Request = Request(b: nat, op: Op, i1: nat, i2: nat, phase: Phase, moved: seq<int>)

  type Requests = map<nat, Request>   // by head descriptor
  type Owners = map<nat, nat>         // head of the chain a descriptor is in

  // Chains

  ghost predicate ChainOk(q: Requests, owner: Owners, h: nat)
    requires h in q
  {
    var r := q[h];
    && h != r.i1 && h != r.i2 && r.i1 != r.i2
    && h in owner && r.i1 in owner && r.i2 in owner
    && owner[h] == h && owner[r.i1] == h && owner[r.i2] == h
  }

  ghost predicate OwnerOk(q: Requests, owner: Owners, i: nat)
    requires i in owner
  {
    i < NUM && owner[i] in q && (i == owner[i] || i == q[owner[i]].i1 || i == q[owner[i]].i2)
  }

  /** Free descriptors and the chains of three partition the descriptors. */
  ghost predicate Partition(free: seq<bool>, q: Requests, owner: Owners) {
    && |free| == NUM
    && (forall i :: 0 <= i < NUM ==> (free[i] <==> i !in owner))
    && (forall h :: h in q ==> ChainOk(q, owner, h))
    && (forall i :: i in owner ==> OwnerOk(q, owner, i))
    && |owner| == 3 * |q|
  }

  lemma {:induction false} SmallSet(s: set<nat>, n: nat)
    requires forall i :: i in s ==> i < n
    ensures |s| <= n
  {
    if n > 0 {
      SmallSet(s - {n - 1}, n - 1);
    } else {
      assert s == {};
    }
  }

  /** At most two requests are in flight. */
  lemma AtMostTwo(free: seq<bool>, q: Requests, owner: Owners)
    requires Partition(free, q, owner)
    ensures |q| <= 2
  {
    forall i | i in owner.Keys ensures i < NUM { assert OwnerOk(q, owner, i); }
    SmallSet(owner.Keys, NUM);
    assert |owner.Keys| == |owner|;
  }

  // What the device finds in memory

  ghost predicate Formatted(desc: seq<Desc>, info: seq<Info>, ops: seq<Op>, q: Requests, h: nat)
    requires h in q && |desc| == NUM && |info| == NUM && |ops| == NUM
  {
    var r := q[h];
    && h < NUM && r.i1 < NUM && r.i2 < NUM
    && desc[h] == Desc(OpOf(h), 16, true, false, r.i1)
    && desc[r.i1] == Desc(DataOf(r.b), 1024, true, !r.op.write, r.i2)
    && desc[r.i2] == Desc(StatusOf(h), 1, false, true, 0)
    && ops[h] == r.op
    && info[h].b == Some(r.b)
    && (r.phase.Used? || r.phase.Done? ==> info[h].status == 0)
  }

  ghost predicate AllFormatted(desc: seq<Desc>, info: seq<Info>, ops: seq<Op>, q: Requests) {
    && |desc| == NUM && |info| == NUM && |ops| == NUM
    && forall h :: h in q ==> Formatted(desc, info, ops, q, h)
  }

  /** Only entries named in idx were written. */
  ghost predicate Elsewhere(desc: seq<Desc>, desc': seq<Desc>, info: seq<Info>, info': seq<Info>, ops: seq<Op>,
                            ops': seq<Op>, idx: seq<nat>)
  {
    && |desc| == NUM && |info| == NUM && |ops| == NUM && |desc'| == NUM && |info'| == NUM && |ops'| == NUM
    && forall j :: 0 <= j < NUM && j !in idx ==> desc'[j] == desc[j] && info'[j] == info[j] && ops'[j] == ops[j]
  }

  // The rings

  /** list holds exactly the heads in the given phase, each once. */
  ghost predicate Lists(q: Requests, list: seq<nat>, phase: Phase) {
    && Distinct(list)
    && forall h :: h in list <==> h in q && q[h].phase == phase
  }

  /** Ring slot of the k-th entry. */
  function Slot(k: nat): (i: nat)
    ensures i < NUM
  {
    k % NUM
  }

  /** A 16-bit index. */
  function Low16(k: nat): (i: nat)
    ensures i < WRAP
  {
    k % WRAP
  }

  lemma Low16Of(d: nat, m: nat)
    requires m < WRAP
    ensures Low16(WRAP * d + m) == m
  {
  }

  lemma SlotOf(d: nat, m: nat)
    requires m < NUM
    ensures Slot(NUM * d + m) == m
  {
  }

  lemma IndexStep(k: nat)
    ensures Low16(Low16(k) + 1) == Low16(k + 1) && Slot(Low16(k)) == Slot(k)
  {
    var d, m := k / WRAP, k % WRAP;
    var e, s := m / NUM, m % NUM;
    assert k == WRAP * d + m && m == NUM * e + s;
    hide Low16, Slot;
    Low16Of(d, m);
    if m == WRAP - 1 { Low16Of(d + 1, 0); Low16Of(1, 0); } else { Low16Of(d, m + 1); Low16Of(0, m + 1); }
    SlotOf(e, s);
    SlotOf(8192 * d + e, s);
    assert k == NUM * (8192 * d + e) + s;
  }

  /** Entries from to to - 1 of a ring hold the given heads; from and to count without wrapping. */
  ghost predicate InRing(ring: seq<nat>, from: nat, to: nat, list: seq<nat>) {
    && |ring| == NUM && to == from + |list|
    && forall k :: from <= k < to ==> ring[Slot(k)] == list[k - from]
  }

  ghost function Elements(s: seq<nat>): (e: set<nat>)
    ensures forall h :: h in e <==> h in s
  {
    set h | h in s
  }

  lemma {:induction false} ListedSet(s: seq<nat>)
    requires Distinct(s)
    ensures |Elements(s)| == |s|
  {
    if s != [] {
      var t, x := s[..|s| - 1], s[|s| - 1];
      ListedSet(t);
      assert s == t + [x];
      assert x !in t;
      assert Elements(s) == Elements(t) + {x};
    } else {
      assert Elements(s) == {};
    }
  }

  /** So what waits in the two rings never exceeds the requests in flight. */
  lemma RingsShort(q: Requests, waiting: seq<nat>, finished: seq<nat>)
    requires Lists(q, waiting, Posted) && Lists(q, finished, Used)
    ensures |waiting| + |finished| <= |q|
  {
    ListedSet(waiting);
    ListedSet(finished);
    var w, f := Elements(waiting), Elements(finished);
    hide Elements, Distinct;
    assert w !! f;
    SubsetSize(w + f, q.Keys);
  }

  /** 16-bit indices tell apart any two counts that differ by less than 2^16. */
  lemma WrappedEqual(a: nat, b: nat)
    requires a <= b < a + WRAP
    ensures Low16(a) == Low16(b) <==> a == b
  {
  }

  // Buffers: each is in at most one request, and b->disk says whether the device is done with it

  ghost predicate BufferOk(q: Requests, busy: map<nat, bool>, bufs: map<nat, seq<int>>, h: nat)
    requires h in q
  {
    var r := q[h];
    && r.b in busy && r.b in bufs
    && (busy[r.b] <==> !r.phase.Done?)
    && (r.phase.Used? || r.phase.Done? ==> bufs[r.b] == r.moved)
  }

  ghost predicate Buffers(q: Requests, busy: map<nat, bool>, bufs: map<nat, seq<int>>) {
    && (forall h :: h in q ==> BufferOk(q, busy, bufs, h))
    && (forall h, k :: h in q && k in q && h != k ==> q[h].b != q[k].b)
  }

  function FreeSet(free: seq<bool>): (f: set<nat>)
    ensures forall i :: i in f <==> 0 <= i < |free| && free[i]
  {
    set i: nat | i < |free| && free[i]
  }

  predicate Less(i: nat, n: nat) { i < n }

  function UpTo(n: nat): (s: set<nat>) {
    set i: nat | i < n && Less(i, n)
  }

  lemma {:induction false} UpToSize(n: nat)
    ensures |UpTo(n)| == n
  {
    if n > 0 {
      UpToSize(n - 1);
      assert forall i: nat :: Less(i, n) <==> Less(i, n - 1) || i == n - 1;
      assert UpTo(n) == UpTo(n - 1) + {n - 1};
    }
  }

  lemma FreeCount(free: seq<bool>, q: Requests, owner: Owners)
    requires Partition(free, q, owner)
    ensures |FreeSet(free)| == NUM - 3 * |q|
  {
    forall i | i in owner.Keys ensures i < NUM { assert OwnerOk(q, owner, i); }
    var all := UpTo(|free|);
    UpToSize(|free|);
    assert forall i: nat :: i < |free| ==> Less(i, |free|);
    assert FreeSet(free) == all - owner.Keys;
    assert owner.Keys <= all;
    assert |all - owner.Keys| == |all| - |owner.Keys|;
  }

  /** The 512-byte sector of a block, in 32-bit arithmetic. */
  function SectorOf(blockno: nat): (s: nat) {
    2 * blockno % 0x1_0000_0000
  }

  /** Submitters sleep only on buffers the disk still has. */
  predicate Awaited(asleep: set<nat>, busy: map<nat, bool>) {
    forall b :: b in asleep ==> b in busy && busy[b]
  }

  lemma StillAwaited(asleep: set<nat>, busy: map<nat, bool>, b: nat)
    requires Awaited(asleep, busy)
    ensures Awaited(asleep, busy[b := true])
  {
  }

  class Disk {
    var desc: seq<Desc>
    var free: seq<bool>
    var info: seq<Info>
    var ops: seq<Op>
    var availRing: seq<nat>
    var availIdx: nat            // written by the driver
    var usedRing: seq<nat>
    var usedIdx: nat             // written by the device
    var seenIdx: nat             // the driver's used_idx
    var takenIdx: nat            // how far the device has read the available ring
    var busy: map<nat, bool>     // b->disk
    var bufs: map<nat, seq<int>> // b->data
    var image: map<nat, seq<int>> // the disk, by sector
    var sleepers: set<nat>       // processes asleep on disk.free[0]
    var asleep: set<nat>         // buffers b whose submitter is asleep on b
    ghost var q: Requests
    ghost var owner: Owners
    ghost var taken: nat         // indices without wrap-around: waiting is taken .. taken + |waiting| - 1
    ghost var seen: nat
    ghost var waiting: seq<nat>
    ghost var finished: seq<nat>

    ghost predicate Shape()
      reads this`desc, this`info, this`ops, this`free, this`availRing, this`usedRing
    {
      |desc| == NUM && |info| == NUM && |ops| == NUM && |free| == NUM && |availRing| == NUM && |usedRing| == NUM
    }

    ghost predicate Rings()
      reads this`q, this`waiting, this`finished, this`availRing, this`usedRing
      reads this`taken, this`seen, this`takenIdx, this`availIdx, this`seenIdx, this`usedIdx
    {
      && Lists(q, waiting, Posted) && Lists(q, finished, Used)
      && InRing(availRing, taken, taken + |waiting|, waiting) && InRing(usedRing, seen, seen + |finished|, finished)
      && takenIdx == Low16(taken) && availIdx == Low16(taken + |waiting|)
      && seenIdx == Low16(seen) && usedIdx == Low16(seen + |finished|)
    }

    ghost predicate Valid()
      reads this
    {
      && Shape() && Partition(free, q, owner) && Rings() && Buffers(q, busy, bufs)
      && AllFormatted(desc, info, ops, q)
      && (sleepers != {} ==> |q| == 2)
      && Awaited(asleep, busy)
    }

    constructor(buffers: map<nat, seq<int>>, contents: map<nat, seq<int>>)
      ensures Valid() && q == map[] && sleepers == {} && asleep == {} && bufs == buffers && image == contents
    {
      desc, free, info, ops := seq(NUM, _ => ZERO), seq(NUM, _ => true), seq(NUM, _ => Info(None, 0)),
        seq(NUM, _ => Op(false, 0));
      availRing, usedRing := seq(NUM, _ => 0), seq(NUM, _ => 0);
      availIdx, usedIdx, seenIdx, takenIdx := 0, 0, 0, 0;
      bufs, image, sleepers, asleep := buffers, contents, {}, {};
      busy := map b | b in buffers :: false;
      q, owner, taken, seen, waiting, finished := map[], map[], 0, 0, [], [];
    }

    /** The first free descriptor, now taken. */
    method AllocDesc() returns (r: Option<nat>)
      requires |free| == NUM
      modifies this`free
      ensures |free| == NUM
      ensures r.Some? ==> r.value < NUM && old(free)[r.value] && free == old(free)[r.value := false]
      ensures r.Some? ==> forall j :: 0 <= j < r.value ==> !old(free)[j]
      ensures r.None? ==> free == old(free) && forall j :: 0 <= j < NUM ==> !free[j]
    {
      var i := 0;
      while i < NUM
        invariant 0 <= i <= NUM && free == old(free) && forall j :: 0 <= j < i ==> !free[j]
      {
        if free[i] {
          free := free[i := false];
          return Some(i);
        }
        i := i + 1;
      }
      return None;
    }

    method FreeDesc(i: nat)
      requires i < NUM && |free| == NUM && |desc| == NUM && !free[i]
      modifies this`free, this`desc, this`sleepers
      ensures free == old(free)[i := true] && desc == old(desc)[i := ZERO] && sleepers == {}
    {
      desc := desc[i := ZERO];
      free := free[i := true];
      sleepers := {};
    }

    /** Three descriptors or none; it fails exactly if fewer than three are free. */
    method Alloc3Desc() returns (idx: seq<nat>)
      requires |free| == NUM && |desc| == NUM
      modifies this`free, this`desc, this`sleepers
      ensures |free| == NUM && |desc| == NUM && (|idx| == 3 || idx == [])
      ensures |idx| == 3 <==> |FreeSet(old(free))| >= 3
      ensures |idx| == 3 ==> Distinct(idx) && desc == old(desc) && sleepers == old(sleepers)
      ensures |idx| == 3 ==> forall i :: 0 <= i < 3 ==> idx[i] < NUM && old(free)[idx[i]]
      ensures |idx| == 3 ==> forall j :: 0 <= j < NUM ==> free[j] == (old(free)[j] && j !in idx)
      ensures idx == [] ==> free == old(free) && forall j :: 0 <= j < NUM && !free[j] ==> desc[j] == old(desc)[j]
    {
      idx := [];
      var i := 0;
      while i < 3
        invariant 0 <= i <= 3 && |idx| == i && Distinct(idx) && |free| == NUM && desc == old(desc) &&
                  sleepers == old(sleepers)
        invariant forall k :: 0 <= k < i ==> idx[k] < NUM && old(free)[idx[k]]
        invariant forall j :: 0 <= j < NUM ==> free[j] == (old(free)[j] && j !in idx)
      {
        var d := AllocDesc();
        if d.None? {
          NoneLeft(old(free), idx);
          GiveBack(idx, old(free));
          return [];
        }
        idx := idx + [d.value];
        i := i + 1;
      }
      ThreeFree(old(free), idx);
    }

    /** alloc3_desc's retreat. */
    method GiveBack(idx: seq<nat>, ghost was: seq<bool>)
      requires |free| == NUM && |desc| == NUM && |was| == NUM && Distinct(idx)
      requires forall k :: 0 <= k < |idx| ==> idx[k] < NUM && was[idx[k]]
      requires forall j :: 0 <= j < NUM ==> free[j] == (was[j] && j !in idx)
      modifies this`free, this`desc, this`sleepers
      ensures free == was && |desc| == NUM && forall j :: 0 <= j < NUM && !free[j] ==> desc[j] == old(desc)[j]
    {
      var j := 0;
      while j < |idx|
        invariant 0 <= j <= |idx| && |free| == NUM && |desc| == NUM
        invariant forall k :: 0 <= k < NUM ==> free[k] == (was[k] && k !in idx[j..])
        invariant forall k :: 0 <= k < NUM && !was[k] ==> desc[k] == old(desc)[k]
      {
        assert idx[j..] == [idx[j]] + idx[j + 1..];
        assert idx[j] !in idx[j + 1..];
        FreeDesc(idx[j]);
        j := j + 1;
      }
    }

    /** virtio_disk_rw up to its first sleep: queue a request, or go to sleep because two are in flight. */
    method Submit(b: nat, write: bool, blockno: nat, pid: nat) returns (ok: bool, head: nat)
      requires Valid() && b in busy && b in bufs && forall h :: h in q ==> q[h].b != b
      modifies this
      ensures Valid() && asleep == old(asleep) && bufs == old(bufs) && image == old(image) && finished == old(finished)
      ensures ok <==> |old(q)| < 2
      ensures ok ==> head !in old(q) && waiting == old(waiting) + [head]
      ensures ok ==> exists i1, i2 :: q == old(q)[head := Request(b, Op(write, SectorOf(blockno)), i1, i2, Posted, [])]
      ensures !ok ==> q == old(q) && waiting == old(waiting) && pid in sleepers
    {
      hide Awaited, Rings, Partition, Buffers, Distinct, FreeSet, AllFormatted, SectorOf;
      FreeCount(free, q, owner);
      AtMostTwo(free, q, owner);
      ghost var free0, desc0 := free, desc;
      var idx := Alloc3Desc();
      if idx == [] {
        StillFormatted(free, q, owner, desc0, desc, info, ops);
        sleepers := sleepers + {pid};
        return false, 0;
      }
      Queue(b, Op(write, SectorOf(blockno)), idx, free0);
      return true, idx[0];
    }

    method Queue(b: nat, op: Op, idx: seq<nat>, ghost free0: seq<bool>)
      requires Shape() && Rings() && Buffers(q, busy, bufs) && Partition(free0, q, owner) && |q| < 2 &&
               sleepers == {} && Awaited(asleep, busy)
      requires AllFormatted(desc, info, ops, q)
      requires b in busy && b in bufs && (forall h :: h in q ==> q[h].b != b)
      requires Chosen(free0, free, idx)
      modifies this`desc, this`info, this`ops, this`busy, this`availRing, this`availIdx, this`waiting, this`q,
               this`owner
      ensures Valid()
      ensures idx[0] !in old(q) && q == old(q)[idx[0] := Request(b, op, idx[1], idx[2], Posted, [])] &&
              waiting == old(waiting) + [idx[0]]
    {
      hide Rings, Partition, Buffers, AllFormatted, Chosen, Awaited;
      ThreeIndices(free0, free, idx);
      ghost var r := Request(b, op, idx[1], idx[2], Posted, []);
      Fill(b, op, idx, free0, r);
      Announce(idx[0], r);
    }

    /** The chain is filled in and belongs to the request, which the device does not know yet. */
    method Fill(b: nat, op: Op, idx: seq<nat>, ghost free0: seq<bool>, ghost r: Request)
      requires Shape() && Buffers(q, busy, bufs) && Partition(free0, q, owner) && Awaited(asleep, busy)
      requires AllFormatted(desc, info, ops, q) && Chosen(free0, free, idx)
      requires b in busy && b in bufs && (forall h :: h in q ==> q[h].b != b)
      requires r == Request(b, op, idx[1], idx[2], Posted, [])
      modifies this`desc, this`info, this`ops, this`busy, this`owner
      ensures Shape() && idx[0] !in q && Partition(free, q[idx[0] := r], owner) && Buffers(q[idx[0] := r], busy, bufs)
      ensures AllFormatted(desc, info, ops, q[idx[0] := r]) && Awaited(asleep, busy)
    {
      hide Partition, Buffers, Formatted, AllFormatted, Elsewhere, Chosen, Awaited;
      ThreeIndices(free0, free, idx);
      StillAwaited(asleep, busy, b);
      NewRequest(free0, free, q, owner, busy, bufs, idx, r);
      owner := owner[idx[0] := idx[0]][idx[1] := idx[0]][idx[2] := idx[0]];
      Format(b, op, idx, r);
      AddFormatted(free0, free, q, old(owner), old(desc), desc, old(info), info, old(ops), ops, idx, r);
    }

    /** Formats the three descriptors. */
    method Format(b: nat, op: Op, idx: seq<nat>, ghost r: Request)
      requires |desc| == NUM && |info| == NUM && |ops| == NUM && |idx| == 3 && idx[0] != idx[1] && idx[0] != idx[2] &&
               idx[1] != idx[2]
      requires idx[0] < NUM && idx[1] < NUM && idx[2] < NUM && r == Request(b, op, idx[1], idx[2], Posted, [])
      modifies this`desc, this`info, this`ops, this`busy
      ensures |desc| == NUM && |info| == NUM && |ops| == NUM && busy == old(busy)[b := true]
      ensures Elsewhere(old(desc), desc, old(info), info, old(ops), ops, idx)
      ensures Formatted(desc, info, ops, map[idx[0] := r], idx[0])
    {
      var h, i1, i2 := idx[0], idx[1], idx[2];
      assert idx == [h, i1, i2];
      ops := ops[h := op];
      desc := desc[h := Desc(OpOf(h), 16, true, false, i1)];
      desc := desc[i1 := Desc(DataOf(b), 1024, true, !op.write, i2)];
      info := info[h := info[h].(status := 0xff)];
      desc := desc[i2 := Desc(StatusOf(h), 1, false, true, 0)];
      busy := busy[b := true];
      info := info[h := info[h].(b := Some(b))];
    }

    /** Tells the device about the chain at h. */
    method Announce(h: nat, ghost r: Request)
      requires Shape() && Rings() && h !in q && r.phase == Posted && |q| <= 2
      modifies this`availRing, this`availIdx, this`waiting, this`q
      ensures |availRing| == NUM && Rings() && q == old(q)[h := r] && waiting == old(waiting) + [h]
    {
      hide Lists, InRing, Slot, Low16;
      RingsShort(q, waiting, finished);
      IndexStep(taken + |waiting|);
      PostRing(availRing, taken, waiting, h);
      AddLists(q, waiting, finished, h, r);
      availRing := availRing[Slot(availIdx) := h];
      availIdx := Low16(availIdx + 1);
      q, waiting := q[h := r], waiting + [h];
    }

    /** The device reads the next entry of the available ring, if there is one. */
    method DeviceTake() returns (head: Option<nat>)
      requires Valid()
      modifies this`takenIdx, this`q, this`waiting, this`taken
      ensures Valid()
      ensures head.None? <==> old(waiting) == []
      ensures head.None? ==> q == old(q) && waiting == old(waiting)
      ensures head.Some? ==>
        && head.value == old(waiting)[0] && waiting == old(waiting)[1..] && head.value in old(q)
        && old(q)[head.value].phase == Posted && q == old(q)[head.value := old(q)[head.value].(phase := Taken)]
    {
      hide Lists, InRing, Partition, Buffers, AllFormatted, Slot, Low16;
      AtMostTwo(free, q, owner);
      RingsShort(q, waiting, finished);
      WrappedEqual(taken, taken + |waiting|);
      if takenIdx == availIdx { return None; }
      IndexStep(taken);
      var h := availRing[Slot(takenIdx)];
      FirstOf(availRing, taken, waiting);
      TakeLists(q, waiting, finished);
      ghost var r := q[h].(phase := Taken);
      Advance(free, q, owner, desc, info, info, ops, busy, bufs, h, r);
      takenIdx := Low16(takenIdx + 1);
      q := q[h := r];
      taken, waiting := taken + 1, waiting[1..];
      head := Some(h);
    }

    /** The device carries out the request whose chain starts at head, as it finds it in memory, and reports it used. */
    method DeviceComplete(head: nat)
      requires Valid() && head in q && q[head].phase == Taken
      modifies this`bufs, this`image, this`info, this`usedRing, this`usedIdx, this`q, this`finished
      ensures Valid() && finished == old(finished) + [head]
      ensures var r := old(q)[head];
        && head in q && q == old(q)[head := r.(phase := Used, moved := q[head].moved)] && r.b in old(bufs)
        && Moved(r, old(bufs), bufs, old(image), image, q[head].moved)
    {
      hide Rings, Partition, Buffers, AllFormatted, Moved;
      BufferOf(q, busy, bufs, head);
      ghost var r := q[head];
      Transfer(head);
      ghost var r' := r.(phase := Used, moved := bufs[r.b]);
      FillBuffer(q, busy, old(bufs), head, bufs[r.b]);
      Advance(free, q, owner, desc, old(info), info, ops, busy, bufs, head, r');
      AtMostTwo(free, q, owner);
      Report(head, r');
    }

    /** Follows the chain: moves the data, and writes the status. */
    method Transfer(head: nat)
      requires AllFormatted(desc, info, ops, q) && head in q && q[head].b in bufs
      modifies this`bufs, this`image, this`info
      ensures |info| == NUM && head < NUM && info == old(info)[head := old(info)[head].(status := 0)] &&
              q[head].b in bufs
      ensures bufs == old(bufs)[q[head].b := bufs[q[head].b]] &&
              Moved(q[head], old(bufs), bufs, old(image), image, bufs[q[head].b])
    {
      assert Formatted(desc, info, ops, q, head);
      hide Formatted, AllFormatted, SectorData;
      var d0 := desc[head];
      var d1 := desc[d0.next];
      var d2 := desc[d1.next];
      var op, b := ops[d0.addr.i], d1.addr.b;
      if op.write {
        image := image[op.sector := bufs[b]];
      } else {
        bufs := bufs[b := SectorData(image, op.sector)];
      }
      info := info[d2.addr.i := info[d2.addr.i].(status := 0)];
    }

    /** Adds the head to the used ring. */
    method Report(head: nat, ghost r: Request)
      requires Shape() && Rings() && head in q && q[head].phase == Taken && r.phase == Used && |q| <= 2
      modifies this`usedRing, this`usedIdx, this`q, this`finished
      ensures |usedRing| == NUM && Rings() && q == old(q)[head := r] && finished == old(finished) + [head]
    {
      hide Lists, InRing, Slot, Low16;
      RingsShort(q, waiting, finished);
      IndexStep(seen + |finished|);
      PostRing(usedRing, seen, finished, head);
      UseLists(q, waiting, finished, head, r);
      usedRing := usedRing[Slot(usedIdx) := head];
      usedIdx := Low16(usedIdx + 1);
      q, finished := q[head := r], finished + [head];
    }

    /** virtio_disk_intr: everything the device has reported so far is marked done. */
    method Interrupt()
      requires Valid()
      modifies this`busy, this`asleep, this`seenIdx, this`q, this`finished, this`seen
      ensures Valid() && finished == [] && q.Keys == old(q).Keys
      ensures forall h :: h in q ==> q[h] == if old(q)[h].phase == Used then old(q)[h].(phase := Done) else old(q)[h]
      ensures asleep <= old(asleep) && forall h :: h in q && q[h].phase == Done ==> q[h].b !in asleep
    {
      hide Awaited, Partition, Buffers, AllFormatted, Lists, InRing, Slot, Low16;
      IndicesTell();
      while seenIdx != usedIdx
        invariant Valid() && q.Keys == old(q).Keys && asleep <= old(asleep) && (seenIdx == usedIdx <==> finished == [])
        invariant forall h :: h in q ==> q[h] == old(q)[h] ||
                                         (old(q)[h].phase == Used && q[h] == old(q)[h].(phase := Done))
        decreases |finished|
      {
        var id := SeeOne();
        IndicesTell();
      }
      NoneUsed(q, finished);
      NoneAsleep(q, busy, bufs, asleep);
    }

    lemma IndicesTell()
      requires Valid()
      ensures seenIdx == usedIdx <==> finished == []
    {
      hide Partition, Buffers, AllFormatted, Lists, InRing, Low16;
      AtMostTwo(free, q, owner);
      RingsShort(q, waiting, finished);
      WrappedEqual(seen, seen + |finished|);
    }

    /** One turn of the loop: the entry's buffer is the one submitted under that head, and it is done. */
    method SeeOne() returns (id: nat)
      requires Valid() && finished != []
      modifies this`busy, this`asleep, this`seenIdx, this`q, this`finished, this`seen
      ensures Valid() && finished == old(finished)[1..] && id == old(finished)[0] && id in old(q) &&
              old(q)[id].phase == Used
      ensures q == old(q)[id := old(q)[id].(phase := Done)] && busy == old(busy)[old(q)[id].b := false]
      ensures asleep == old(asleep) - {old(q)[id].b}
    {
      hide Rings, Partition, Buffers, AllFormatted, Slot;
      id := usedRing[Slot(seenIdx)];
      FirstUsed();
      Reported(free, q, owner, desc, info, ops, id);
      assert info[id].status == 0;
      var b := info[id].b.value;
      ghost var r := q[id].(phase := Done);
      Advance(free, q, owner, desc, info, info, ops, busy, bufs, id, r);
      busy := busy[b := false];
      asleep := asleep - {b};
      Passed(r);
    }

    lemma FirstUsed()
      requires Shape() && Rings() && finished != []
      ensures usedRing[Slot(seenIdx)] == finished[0] && finished[0] in q && q[finished[0]].phase == Used
    {
      hide Lists, Low16, Slot;
      IndexStep(seen);
      FirstOf(usedRing, seen, finished);
      SeeLists(q, waiting, finished);
    }

    method Passed(ghost r: Request)
      requires Shape() && Rings() && finished != [] && finished[0] in q && r == q[finished[0]].(phase := Done)
      modifies this`seenIdx, this`q, this`finished, this`seen
      ensures Rings() && q == old(q)[old(finished)[0] := r] && finished == old(finished)[1..]
    {
      hide Lists, InRing, Low16;
      IndexStep(seen);
      FirstOf(usedRing, seen, finished);
      SeeLists(q, waiting, finished);
      seenIdx := Low16(seenIdx + 1);
      q := q[finished[0] := r];
      seen, finished := seen + 1, finished[1..];
    }

    /** Frees the descriptors of a chain, following their next fields. */
    method FreeChain(h: nat, ghost r: Request)
      requires |free| == NUM && |desc| == NUM && |info| == NUM && |ops| == NUM && h != r.i1 && h != r.i2 && r.i1 != r.i2
      requires h < NUM && r.i1 < NUM && r.i2 < NUM && !free[h] && !free[r.i1] && !free[r.i2]
      requires desc[h].hasNext && desc[h].next == r.i1 && desc[r.i1].hasNext && desc[r.i1].next == r.i2 &&
               !desc[r.i2].hasNext
      modifies this`free, this`desc, this`sleepers
      ensures free == old(free)[h := true][r.i1 := true][r.i2 := true] && sleepers == {}
      ensures desc == old(desc)[h := ZERO][r.i1 := ZERO][r.i2 := ZERO]
    {
      var i, going := h, true;
      ghost var k := 0;
      while going
        invariant 0 <= k <= 3 && (going <==> k < 3) && |free| == NUM && |desc| == NUM
        invariant k == 0 ==> i == h && free == old(free) && desc == old(desc)
        invariant k == 1 ==> i == r.i1 && free == old(free)[h := true] && desc == old(desc)[h := ZERO]
        invariant k == 2 ==> i == r.i2 && free == old(free)[h := true][r.i1 := true] &&
                             desc == old(desc)[h := ZERO][r.i1 := ZERO]
        invariant k == 3 ==> free == old(free)[h := true][r.i1 := true][r.i2 := true] &&
                             desc == old(desc)[h := ZERO][r.i1 := ZERO][r.i2 := ZERO] && sleepers == {}
        decreases 3 - k
      {
        var flag, nxt := desc[i].hasNext, desc[i].next;
        FreeDesc(i);
        if flag { i := nxt; } else { going := false; }
        k := k + 1;
      }
    }

    /** The end of virtio_disk_rw: once b->disk is clear the request is over and its chain is free again. */
    method Finish(head: nat, b: nat) returns (ok: bool)
      requires Valid() && head in q && q[head].b == b && b in busy
      modifies this`asleep, this`info, this`free, this`desc, this`sleepers, this`q, this`owner
      ensures Valid() && (ok <==> old(q)[head].phase == Done)
      ensures !ok ==> q == old(q) && asleep == old(asleep) + {b}
      ensures ok ==> asleep == old(asleep) && b !in asleep
      ensures ok ==> q == old(q) - {head} && b in bufs && bufs[b] == old(q)[head].moved && sleepers == {}
    {
      hide Rings, Partition, Buffers, AllFormatted, Formatted, ChainOk;
      BufferOf(q, busy, bufs, head);
      if busy[b] {
        asleep := asleep + {b};
        return false;
      }
      ghost var r := q[head];
      ChainFacts(free, q, owner, desc, info, ops, head);
      info := info[head := info[head].(b := None)];
      FreeChain(head, r);
      Removed(old(free), free, q, owner, old(desc), desc, old(info), info, ops, busy, bufs, head);
      owner := owner - {head, r.i1, r.i2};
      Forget(head);
      ok := true;
    }

    ghost method Forget(head: nat)
      requires Rings() && head in q && q[head].phase == Done
      modifies this`q
      ensures Rings() && q == old(q) - {head}
    {
      q := q - {head};
    }
  }

  /** Nobody is asleep on a request that is done. */
  lemma NoneAsleep(q: Requests, busy: map<nat, bool>, bufs: map<nat, seq<int>>, asleep: set<nat>)
    requires Buffers(q, busy, bufs) && Awaited(asleep, busy)
    ensures forall h :: h in q && q[h].phase == Done ==> q[h].b !in asleep
  {
    forall h | h in q && q[h].phase == Done ensures q[h].b !in asleep { BufferOf(q, busy, bufs, h); }
  }

  lemma NoneLeft(free: seq<bool>, idx: seq<nat>)
    requires |free| == NUM && |idx| < 3 && Distinct(idx) && forall j: nat :: j < NUM && free[j] ==> j in idx
    ensures |FreeSet(free)| < 3
  {
    ListedSet(idx);
    SubsetSize(FreeSet(free), Elements(idx));
  }

  lemma ThreeFree(free: seq<bool>, idx: seq<nat>)
    requires |free| == NUM && |idx| == 3 && Distinct(idx) && forall k :: 0 <= k < 3 ==> idx[k] < NUM && free[idx[k]]
    ensures |FreeSet(free)| >= 3
  {
    ListedSet(idx);
    SubsetSize(Elements(idx), FreeSet(free));
  }

  lemma StillFormatted(free: seq<bool>, q: Requests, owner: Owners, desc: seq<Desc>, desc': seq<Desc>, info: seq<Info>,
                       ops: seq<Op>)
    requires Partition(free, q, owner) && |desc'| == NUM && AllFormatted(desc, info, ops, q)
    requires forall j :: 0 <= j < NUM && !free[j] ==> desc'[j] == desc[j]
    ensures AllFormatted(desc', info, ops, q)
  {
    forall h | h in q ensures Formatted(desc', info, ops, q, h) {
      assert ChainOk(q, owner, h) && Formatted(desc, info, ops, q, h);
    }
  }

  /** idx names three free descriptors, and free is free0 without them. */
  ghost predicate Chosen(free0: seq<bool>, free: seq<bool>, idx: seq<nat>) {
    && |free0| == NUM && |free| == NUM && |idx| == 3 && Distinct(idx)
    && (forall i :: 0 <= i < 3 ==> idx[i] < NUM && free0[idx[i]])
    && (forall j :: 0 <= j < NUM ==> free[j] == (free0[j] && j !in idx))
  }

  lemma ThreeIndices(free0: seq<bool>, free: seq<bool>, idx: seq<nat>)
    requires Chosen(free0, free, idx)
    ensures |idx| == 3 && idx[0] < NUM && idx[1] < NUM && idx[2] < NUM && idx[0] != idx[1] && idx[0] != idx[2] &&
            idx[1] != idx[2]
  {
  }

  /** The chosen descriptors are in no chain. */
  lemma ChosenFresh(free0: seq<bool>, free: seq<bool>, q: Requests, owner: Owners, idx: seq<nat>)
    requires Partition(free0, q, owner) && Chosen(free0, free, idx)
    ensures idx[0] !in q && idx[0] !in owner && idx[1] !in owner && idx[2] !in owner && idx == [idx[0], idx[1], idx[2]]
    ensures forall i :: 0 <= i < NUM ==> (free[i] <==> i !in owner && i != idx[0] && i != idx[1] && i != idx[2])
  {
    hide OwnerOk;
    assert idx[0] in q ==> ChainOk(q, owner, idx[0]);
  }

  lemma ChainStays(q: Requests, owner: Owners, h: nat, i1: nat, i2: nat, r: Request, k: nat)
    requires k in q && ChainOk(q, owner, k) && h !in q && h !in owner && i1 !in owner && i2 !in owner
    ensures ChainOk(q[h := r], owner[h := h][i1 := h][i2 := h], k)
  {
  }

  lemma OwnerStays(q: Requests, owner: Owners, h: nat, i1: nat, i2: nat, r: Request, i: nat)
    requires h < NUM && i1 < NUM && i2 < NUM && r.i1 == i1 && r.i2 == i2 && h !in q
    requires i in owner[h := h][i1 := h][i2 := h] && (i in owner ==> OwnerOk(q, owner, i))
    requires h !in owner && i1 !in owner && i2 !in owner
    ensures OwnerOk(q[h := r], owner[h := h][i1 := h][i2 := h], i)
  {
  }

  lemma AddOwners(free0: seq<bool>, free: seq<bool>, q: Requests, owner: Owners, idx: seq<nat>)
    requires Partition(free0, q, owner) && Chosen(free0, free, idx)
    ensures var owner' := owner[idx[0] := idx[0]][idx[1] := idx[0]][idx[2] := idx[0]];
            && |free| == NUM && |owner'| == 3 * |q| + 3 && forall i :: 0 <= i < NUM ==> (free[i] <==> i !in owner')
  {
    hide ChainOk, OwnerOk;
    ThreeIndices(free0, free, idx);
    assert idx == [idx[0], idx[1], idx[2]];
  }

  lemma AddChain(free0: seq<bool>, free: seq<bool>, q: Requests, owner: Owners, idx: seq<nat>, r: Request)
    requires Partition(free0, q, owner) && Chosen(free0, free, idx) && r.i1 == idx[1] && r.i2 == idx[2]
    ensures idx[0] !in q
    ensures Partition(free, q[idx[0] := r], owner[idx[0] := idx[0]][idx[1] := idx[0]][idx[2] := idx[0]])
  {
    ChosenFresh(free0, free, q, owner, idx);
    ThreeIndices(free0, free, idx);
    AddOwners(free0, free, q, owner, idx);
    NewChain(q, owner, idx[0], idx[1], idx[2], r);
    hide ChainOk, OwnerOk, Chosen;
  }

  lemma NewChain(q: Requests, owner: Owners, h: nat, i1: nat, i2: nat, r: Request)
    requires h < NUM && i1 < NUM && i2 < NUM && h != i1 && h != i2 && i1 != i2 && r.i1 == i1 && r.i2 == i2
    requires h !in q && h !in owner && i1 !in owner && i2 !in owner
    requires (forall k :: k in q ==> ChainOk(q, owner, k)) && forall i :: i in owner ==> OwnerOk(q, owner, i)
    ensures var q', owner' := q[h := r], owner[h := h][i1 := h][i2 := h];
            && (forall k :: k in q' ==> ChainOk(q', owner', k)) && forall i :: i in owner' ==> OwnerOk(q', owner', i)
  {
    var q', owner' := q[h := r], owner[h := h][i1 := h][i2 := h];
    assert ChainOk(q', owner', h);
    hide ChainOk, OwnerOk;
    forall k | k in q' ensures ChainOk(q', owner', k) {
      if k != h { ChainStays(q, owner, h, i1, i2, r, k); }
    }
    forall i | i in owner' ensures OwnerOk(q', owner', i) { OwnerStays(q, owner, h, i1, i2, r, i); }
  }

  lemma PostRing(ring: seq<nat>, from: nat, list: seq<nat>, h: nat)
    requires InRing(ring, from, from + |list|, list) && |list| < NUM
    ensures InRing(ring[Slot(from + |list|) := h], from, from + |list| + 1, list + [h])
  {
    var ring' := ring[Slot(from + |list|) := h];
    forall k | from <= k < from + |list| + 1 ensures ring'[Slot(k)] == (list + [h])[k - from] {
      if k < from + |list| { SlotsDiffer(k, from + |list|); }
    }
  }

  /** Fewer than NUM consecutive counts fall on distinct ring slots. */
  lemma SlotsDiffer(a: nat, b: nat)
    requires a < b < a + NUM
    ensures Slot(a) != Slot(b)
  {
  }

  lemma AddFormatted(free: seq<bool>, free': seq<bool>, q: Requests, owner: Owners, desc: seq<Desc>, desc': seq<Desc>,
                     info: seq<Info>, info': seq<Info>,
                     ops: seq<Op>, ops': seq<Op>, idx: seq<nat>, r: Request)
    requires Partition(free, q, owner) && AllFormatted(desc, info, ops, q) &&
             Elsewhere(desc, desc', info, info', ops, ops', idx)
    requires Chosen(free, free', idx) && idx[0] !in q && Formatted(desc', info', ops', map[idx[0] := r], idx[0])
    ensures AllFormatted(desc', info', ops', q[idx[0] := r])
  {
    var q' := q[idx[0] := r];
    forall h | h in q' ensures Formatted(desc', info', ops', q', h) {
      if h != idx[0] { StaysFormatted(free, q, q', owner, desc, desc', info, info', ops, ops', idx, h); }
    }
  }

  lemma StaysFormatted(free: seq<bool>, q: Requests, q': Requests, owner: Owners, desc: seq<Desc>, desc': seq<Desc>,
                       info: seq<Info>, info': seq<Info>,
                       ops: seq<Op>, ops': seq<Op>, idx: seq<nat>, h: nat)
    requires Partition(free, q, owner) && Elsewhere(desc, desc', info, info', ops, ops', idx)
    requires forall i :: 0 <= i < |idx| ==> idx[i] < NUM && (free[idx[i]] || (idx[i] in owner && owner[idx[i]] != h))
    requires h in q && h in q' && q'[h] == q[h] && Formatted(desc, info, ops, q, h)
    ensures Formatted(desc', info', ops', q', h)
  {
    assert ChainOk(q, owner, h);
    var r := q[h];
    assert h !in idx && r.i1 !in idx && r.i2 !in idx;
  }

  lemma AddLists(q: Requests, waiting: seq<nat>, finished: seq<nat>, h: nat, r: Request)
    requires Lists(q, waiting, Posted) && Lists(q, finished, Used) && h !in q && r.phase == Posted
    ensures Lists(q[h := r], waiting + [h], Posted) && Lists(q[h := r], finished, Used)
  {
  }

  lemma NewRequest(free0: seq<bool>, free: seq<bool>, q: Requests, owner: Owners, busy: map<nat, bool>, bufs: map<nat,
                   seq<int>>, idx: seq<nat>, r: Request)
    requires Partition(free0, q, owner) && Chosen(free0, free, idx) && r.i1 == idx[1] && r.i2 == idx[2]
    requires Buffers(q, busy, bufs) && r.phase == Posted && r.b in bufs && forall k :: k in q ==> q[k].b != r.b
    ensures idx[0] !in q && Partition(free, q[idx[0] := r], owner[idx[0] := idx[0]][idx[1] := idx[0]][idx[2] := idx[0]])
    ensures Buffers(q[idx[0] := r], busy[r.b := true], bufs)
  {
    hide Partition, Buffers, Chosen;
    ThreeIndices(free0, free, idx);
    AddChain(free0, free, q, owner, idx, r);
    AddBuffer(q, busy, bufs, idx[0], r);
  }

  lemma AddBuffer(q: Requests, busy: map<nat, bool>, bufs: map<nat, seq<int>>, h: nat, r: Request)
    requires Buffers(q, busy, bufs) && h !in q && r.phase == Posted && r.b in bufs &&
             forall k :: k in q ==> q[k].b != r.b
    ensures Buffers(q[h := r], busy[r.b := true], bufs)
  {
    var q', busy' := q[h := r], busy[r.b := true];
    forall k | k in q' ensures BufferOk(q', busy', bufs, k) {
      if k != h { assert BufferOk(q, busy, bufs, k); }
    }
  }

  lemma FirstOf(ring: seq<nat>, from: nat, list: seq<nat>)
    requires InRing(ring, from, from + |list|, list) && list != []
    ensures ring[Slot(from)] == list[0] && InRing(ring, from + 1, from + |list|, list[1..])
  {
  }

  /** A request moving on keeps its chain. */
  lemma MoveChain(free: seq<bool>, q: Requests, owner: Owners, h: nat, r: Request)
    requires Partition(free, q, owner) && h in q && r.i1 == q[h].i1 && r.i2 == q[h].i2
    ensures Partition(free, q[h := r], owner) && |q[h := r]| == |q|
  {
    var q' := q[h := r];
    forall k | k in q' ensures ChainOk(q', owner, k) { assert ChainOk(q, owner, k); }
    forall i | i in owner ensures OwnerOk(q', owner, i) { assert OwnerOk(q, owner, i); }
  }

  lemma MoveFormatted(desc: seq<Desc>, info: seq<Info>, info': seq<Info>, ops: seq<Op>, q: Requests, h: nat, r: Request)
    requires AllFormatted(desc, info, ops, q) && h in q && h < NUM && |info'| == NUM
    requires info' == info || info' == info[h := info[h].(status := 0)]
    requires r.b == q[h].b && r.op == q[h].op && r.i1 == q[h].i1 && r.i2 == q[h].i2
    requires r.phase.Used? || r.phase.Done? ==> info'[h].status == 0
    ensures AllFormatted(desc, info', ops, q[h := r])
  {
    var q' := q[h := r];
    forall k | k in q' ensures Formatted(desc, info', ops, q', k) { assert Formatted(desc, info, ops, q, k); }
  }

  lemma TakeLists(q: Requests, waiting: seq<nat>, finished: seq<nat>)
    requires Lists(q, waiting, Posted) && Lists(q, finished, Used) && waiting != []
    ensures waiting[0] in q && q[waiting[0]].phase == Posted
    ensures var q' := q[waiting[0] := q[waiting[0]].(phase := Taken)];
            Lists(q', waiting[1..], Posted) && Lists(q', finished, Used)
  {
    assert waiting == [waiting[0]] + waiting[1..];
  }

  lemma MoveBuffers(q: Requests, busy: map<nat, bool>, bufs: map<nat, seq<int>>, h: nat, r: Request)
    requires Buffers(q, busy, bufs) && h in q && r.b == q[h].b && !q[h].phase.Done?
    requires r.phase.Posted? || r.phase.Taken? || (r.phase.Used? && r.moved == bufs[r.b]) ||
             (r.phase.Done? && q[h].phase.Used? && r.moved == q[h].moved)
    requires r.b in bufs
    ensures Buffers(q[h := r], if r.phase.Done? then busy[r.b := false] else busy, bufs)
  {
    var q', busy' := q[h := r], if r.phase.Done? then busy[r.b := false] else busy;
    forall k | k in q' ensures BufferOk(q', busy', bufs, k) {
      assert BufferOk(q, busy, bufs, k) && BufferOk(q, busy, bufs, h);
    }
  }

  lemma Advance(free: seq<bool>, q: Requests, owner: Owners, desc: seq<Desc>, info: seq<Info>, info': seq<Info>,
                ops: seq<Op>, busy: map<nat, bool>, bufs: map<nat, seq<int>>, h: nat, r: Request)
    requires Partition(free, q, owner) && AllFormatted(desc, info, ops, q) && Buffers(q, busy, bufs) && h in q &&
             !q[h].phase.Done?
    requires r.b == q[h].b && r.op == q[h].op && r.i1 == q[h].i1 && r.i2 == q[h].i2
    requires r.phase.Taken? || (r.phase.Used? && r.b in bufs && r.moved == bufs[r.b]) ||
             (r.phase.Done? && q[h].phase.Used? && r.moved == q[h].moved)
    requires info' == if r.phase.Used? && h < |info| then info[h := info[h].(status := 0)] else info
    ensures Partition(free, q[h := r], owner) && |q[h := r]| == |q| && AllFormatted(desc, info', ops, q[h := r])
    ensures Buffers(q[h := r], if r.phase.Done? then busy[r.b := false] else busy, bufs)
  {
    HeadInRange(free, q, owner, h);
    BufferOf(q, busy, bufs, h);
    assert Formatted(desc, info, ops, q, h);
    hide Partition, AllFormatted, Buffers;
    MoveChain(free, q, owner, h, r);
    assert |info| == NUM by { InfoSize(desc, info, ops, q); }
    MoveFormatted(desc, info, info', ops, q, h, r);
    MoveBuffers(q, busy, bufs, h, r);
  }

  lemma InfoSize(desc: seq<Desc>, info: seq<Info>, ops: seq<Op>, q: Requests)
    requires AllFormatted(desc, info, ops, q)
    ensures |info| == NUM
  {
  }

  lemma BufferOf(q: Requests, busy: map<nat, bool>, bufs: map<nat, seq<int>>, h: nat)
    requires Buffers(q, busy, bufs) && h in q
    ensures BufferOk(q, busy, bufs, h)
  {
  }

  lemma HeadInRange(free: seq<bool>, q: Requests, owner: Owners, h: nat)
    requires Partition(free, q, owner) && h in q
    ensures h < NUM
  {
    assert ChainOk(q, owner, h) && OwnerOk(q, owner, h);
  }

  /** What a read of a sector delivers; a sector never written reads as nothing. */
  function SectorData(image: map<nat, seq<int>>, sector: nat): (d: seq<int>) {
    if sector in image then image[sector] else []
  }

  /** A write put the buffer's data on the disk; a read put the disk's data in the buffer. */
  ghost predicate Moved(r: Request, bufs: map<nat, seq<int>>, bufs': map<nat, seq<int>>, image: map<nat, seq<int>>,
                        image': map<nat, seq<int>>, data: seq<int>)
    requires r.b in bufs
  {
    if r.op.write then data == bufs[r.b] && bufs' == bufs && image' == image[r.op.sector := data]
    else data == SectorData(image, r.op.sector) && bufs' == bufs[r.b := data] && image' == image
  }

  lemma FillBuffer(q: Requests, busy: map<nat, bool>, bufs: map<nat, seq<int>>, h: nat, d: seq<int>)
    requires Buffers(q, busy, bufs) && h in q && q[h].phase == Taken
    ensures Buffers(q, busy, bufs[q[h].b := d])
  {
    var bufs' := bufs[q[h].b := d];
    forall k | k in q ensures BufferOk(q, busy, bufs', k) { assert BufferOk(q, busy, bufs, k); }
  }

  lemma UseLists(q: Requests, waiting: seq<nat>, finished: seq<nat>, h: nat, r: Request)
    requires Lists(q, waiting, Posted) && Lists(q, finished, Used) && h in q && q[h].phase == Taken && r.phase == Used
    ensures Lists(q[h := r], waiting, Posted) && Lists(q[h := r], finished + [h], Used)
  {
  }

  lemma SeeLists(q: Requests, waiting: seq<nat>, finished: seq<nat>)
    requires Lists(q, waiting, Posted) && Lists(q, finished, Used) && finished != []
    ensures finished[0] in q && q[finished[0]].phase == Used
    ensures var q' := q[finished[0] := q[finished[0]].(phase := Done)];
            Lists(q', waiting, Posted) && Lists(q', finished[1..], Used)
  {
    assert finished == [finished[0]] + finished[1..];
  }

  /** A used entry names a chain whose status is 0 and whose info entry still holds the buffer submitted with it. */
  lemma Reported(free: seq<bool>, q: Requests, owner: Owners, desc: seq<Desc>, info: seq<Info>, ops: seq<Op>, id: nat)
    requires Partition(free, q, owner) && AllFormatted(desc, info, ops, q) && id in q && q[id].phase == Used
    ensures id < NUM && |info| == NUM && info[id].status == 0 && info[id].b == Some(q[id].b)
  {
    assert Formatted(desc, info, ops, q, id);
  }

  lemma NoneUsed(q: Requests, finished: seq<nat>)
    requires Lists(q, finished, Used) && finished == []
    ensures forall h :: h in q ==> q[h].phase != Used
  {
  }

  lemma ChainFacts(free: seq<bool>, q: Requests, owner: Owners, desc: seq<Desc>, info: seq<Info>, ops: seq<Op>, h: nat)
    requires Partition(free, q, owner) && AllFormatted(desc, info, ops, q) && h in q
    ensures |free| == NUM && |desc| == NUM && |info| == NUM && |ops| == NUM
    ensures var r := q[h];
      && h != r.i1 && h != r.i2 && r.i1 != r.i2 && h < NUM && r.i1 < NUM && r.i2 < NUM && !free[h] && !free[r.i1] &&
         !free[r.i2]
      && desc[h].hasNext && desc[h].next == r.i1 && desc[r.i1].hasNext && desc[r.i1].next == r.i2 && !desc[r.i2].hasNext
  {
    assert ChainOk(q, owner, h) && Formatted(desc, info, ops, q, h);
  }

  /** q' is q without h, and owner' is owner without h's chain. */
  ghost predicate Without(q: Requests, q': Requests, owner: Owners, owner': Owners, h: nat) {
    && h in q
    && (forall k :: k in q' <==> k in q && k != h) && (forall k :: k in q' ==> q'[k] == q[k])
    && (forall i :: i in owner' <==> i in owner && i != h && i != q[h].i1 && i != q[h].i2) &&
       (forall i :: i in owner' ==> owner'[i] == owner[i])
    && |q'| == |q| - 1 && |owner'| == |owner| - 3
  }

  lemma Removed(free: seq<bool>, free': seq<bool>, q: Requests, owner: Owners, desc: seq<Desc>, desc': seq<Desc>,
                info: seq<Info>, info': seq<Info>,
                ops: seq<Op>, busy: map<nat, bool>, bufs: map<nat, seq<int>>, h: nat)
    requires Partition(free, q, owner) && AllFormatted(desc, info, ops, q) && Buffers(q, busy, bufs) && h in q
    requires h < NUM && q[h].i1 < NUM && q[h].i2 < NUM && |free| == NUM && |desc| == NUM && |info| == NUM &&
             |ops| == NUM
    requires free' == free[h := true][q[h].i1 := true][q[h].i2 := true]
    requires desc' == desc[h := ZERO][q[h].i1 := ZERO][q[h].i2 := ZERO] && info' == info[h := info[h].(b := None)]
    ensures Partition(free', q - {h}, owner - {h, q[h].i1, q[h].i2}) && Buffers(q - {h}, busy, bufs) &&
            AllFormatted(desc', info', ops, q - {h})
  {
    hide Partition, Buffers, AllFormatted, Elsewhere, Without, ChainOk, OwnedBy;
    var q', owner', idx := q - {h}, owner - {h, q[h].i1, q[h].i2}, [h, q[h].i1, q[h].i2];
    ChainOwned(free, q, owner, h, idx);
    RemovedSizes(q, owner, h);
    RemovedChain(free, free', q, q', owner, owner', h);
    ZeroedOnly(desc, desc', info, info', ops, h, q[h].i1, q[h].i2);
    RemovedFormatted(free, q, q', owner, owner', desc, desc', info, info', ops, h, idx);
    RemovedBuffers(q, busy, bufs, h);
  }

  ghost predicate OwnedBy(owner: Owners, idx: seq<nat>, h: nat) {
    forall i :: 0 <= i < |idx| ==> idx[i] < NUM && idx[i] in owner && owner[idx[i]] == h
  }

  lemma ChainOwned(free: seq<bool>, q: Requests, owner: Owners, h: nat, idx: seq<nat>)
    requires Partition(free, q, owner) && h in q && h < NUM && q[h].i1 < NUM && q[h].i2 < NUM &&
             idx == [h, q[h].i1, q[h].i2]
    ensures OwnedBy(owner, idx, h) && ChainOk(q, owner, h)
  {
    assert ChainOk(q, owner, h);
  }

  lemma ZeroedOnly(desc: seq<Desc>, desc': seq<Desc>, info: seq<Info>, info': seq<Info>, ops: seq<Op>, h: nat, i1: nat,
                   i2: nat)
    requires h < NUM && i1 < NUM && i2 < NUM && |desc| == NUM && |info| == NUM && |ops| == NUM
    requires desc' == desc[h := ZERO][i1 := ZERO][i2 := ZERO] && info' == info[h := info[h].(b := None)]
    ensures Elsewhere(desc, desc', info, info', ops, ops, [h, i1, i2])
  {
  }

  lemma RemovedFormatted(free: seq<bool>, q: Requests, q': Requests, owner: Owners, owner': Owners,
                         desc: seq<Desc>, desc': seq<Desc>, info: seq<Info>, info': seq<Info>, ops: seq<Op>, h: nat,
                         idx: seq<nat>)
    requires Partition(free, q, owner) && AllFormatted(desc, info, ops, q) && Without(q, q', owner, owner', h)
    requires Elsewhere(desc, desc', info, info', ops, ops, idx)
    requires OwnedBy(owner, idx, h)
    ensures AllFormatted(desc', info', ops, q')
  {
    hide Partition, Formatted;
    forall k | k in q' ensures Formatted(desc', info', ops, q', k) {
      StaysFormatted(free, q, q', owner, desc, desc', info, info', ops, ops, idx, k);
    }
  }

  lemma ChainRemains(q: Requests, q': Requests, owner: Owners, owner': Owners, h: nat, k: nat)
    requires Without(q, q', owner, owner', h) && k in q' && ChainOk(q, owner, k) && ChainOk(q, owner, h)
    ensures ChainOk(q', owner', k)
  {
  }

  lemma OwnerRemains(q: Requests, q': Requests, owner: Owners, owner': Owners, h: nat, i: nat)
    requires Without(q, q', owner, owner', h) && i in owner' && OwnerOk(q, owner, i) && ChainOk(q, owner, h)
    ensures OwnerOk(q', owner', i)
  {
  }

  lemma RemovedChain(free: seq<bool>, free': seq<bool>, q: Requests, q': Requests, owner: Owners, owner': Owners,
                     h: nat)
    requires Partition(free, q, owner) && Without(q, q', owner, owner', h) && h < NUM && q[h].i1 < NUM && q[h].i2 < NUM
    requires free' == free[h := true][q[h].i1 := true][q[h].i2 := true]
    ensures Partition(free', q', owner')
  {
    hide ChainOk, OwnerOk;
    assert ChainOk(q, owner, h);
    forall k | k in q' ensures ChainOk(q', owner', k) { ChainRemains(q, q', owner, owner', h, k); }
    forall i | i in owner' ensures OwnerOk(q', owner', i) { OwnerRemains(q, q', owner, owner', h, i); }
  }

  lemma RemovedSizes(q: Requests, owner: Owners, h: nat)
    requires h in q && ChainOk(q, owner, h)
    ensures Without(q, q - {h}, owner, owner - {h, q[h].i1, q[h].i2}, h)
  {
    var r := q[h];
    assert (q - {h}).Keys == q.Keys - {h};
    assert (owner - {h, r.i1, r.i2}).Keys == owner.Keys - {h} - {r.i1} - {r.i2};
    assert |q - {h}| == |(q - {h}).Keys| && |owner - {h, r.i1, r.i2}| == |(owner - {h, r.i1, r.i2}).Keys|;
  }

  lemma RemovedBuffers(q: Requests, busy: map<nat, bool>, bufs: map<nat, seq<int>>, h: nat)
    requires Buffers(q, busy, bufs) && h in q
    ensures Buffers(q - {h}, busy, bufs)
  {
    var q' := q - {h};
    forall k | k in q' ensures BufferOk(q', busy, bufs, k) { assert BufferOk(q, busy, bufs, k); }
  }
}
