/** Pipes: a ring of PIPESIZE bytes with 32-bit counters that wrap, and the processes asleep on
    it. A method is one stretch of pipewrite, piperead or pipeclose with pi->lock held: from
    acquire, or from being woken, to going to sleep or returning. A run is any sequence of
    stretches of any processes. Sleeping and waking are atomic here, as SleepLock justifies. */
module Pipe {

  const PIPESIZE := 512
  const WRAP := 0x1_0000_0000

  function Slot(k: nat): (i: nat)
    ensures i < PIPESIZE
  {
    k % PIPESIZE
  }

  function Low32(k: nat): (i: nat)
    ensures i < WRAP
  {
    k % WRAP
  }

  lemma Low32Of(d: nat, m: nat)
    requires m < WRAP
    ensures Low32(WRAP * d + m) == m
  {
  }

  lemma SlotOf(d: nat, m: nat)
    requires m < PIPESIZE
    ensures Slot(PIPESIZE * d + m) == m
  {
  }

  /** Adding to a wrapped counter wraps once, and the ring slot of a wrapped counter is that of the count. */
  lemma CounterStep(k: nat, n: nat)
    requires n <= PIPESIZE
    ensures Low32(Low32(k) + n) == Low32(k + n) && Slot(Low32(k)) == Slot(k)
  {
    var d, m := k / WRAP, k % WRAP;
    var e, s := m / PIPESIZE, m % PIPESIZE;
    assert k == WRAP * d + m && m == PIPESIZE * e + s;
    hide Low32, Slot;
    Low32Of(d, m);
    if m + n >= WRAP {
      Low32Of(d + 1, m + n - WRAP);
      Low32Of(1, m + n - WRAP);
    } else {
      Low32Of(d, m + n);
      Low32Of(0, m + n);
    }
    SlotOf(e, s);
    SlotOf(0x80_0000 * d + e, s);
    assert k == PIPESIZE * (0x80_0000 * d + e) + s;
  }

  /** Wrapped counters that are at most PIPESIZE apart are equal only if the counts are. */
  lemma CountersDiffer(a: nat, b: nat)
    requires a <= b <= a + PIPESIZE
    ensures Low32(a) == Low32(b) <==> a == b
  {
  }

  /** Positions less than a ring apart use different slots. */
  lemma SlotsDiffer(a: nat, b: nat)
    requires a < b < a + PIPESIZE
    ensures Slot(a) != Slot(b)
  {
  }

  /** The first position from `from` on at which pipewrite finds the read end closed or itself killed, or len. */
  function Stop(from: nat, len: nat, readopen: bool, killed: set<nat>): (p: nat)
    requires from <= len
    ensures from <= p <= len
    decreases len - from
  {
    if from == len || !readopen || from in killed then from else Stop(from + 1, len, readopen, killed)
  }

  lemma {:induction false} FirstStop(from: nat, len: nat, readopen: bool, killed: set<nat>)
    requires from <= len
    ensures var p := Stop(from, len, readopen, killed);
            && from <= p <= len && (p < len ==> !readopen || p in killed)
            && (p > from ==> readopen) && forall k :: from <= k < p ==> k !in killed
    decreases len - from
  {
    if from < len && readopen && from !in killed { FirstStop(from + 1, len, readopen, killed); }
  }

  /** What a stretch came to. */
  datatype Outcome = Asleep(i: nat) | Returned(r: int)

  class Pipe {
    var data: seq<int>
    var nread: nat
    var nwrite: nat
    var readopen: bool
    var writeopen: bool
    var readers: set<nat>        // asleep on &nread
    var writers: set<nat>        // asleep on &nwrite
    ghost var inserted: seq<int> // every byte ever put in
    ghost var removed: seq<int>  // every byte ever taken out

    /** The bytes taken out are a prefix of those put in, and the ring holds the rest, at most PIPESIZE of them. */
    ghost predicate Fifo()
      reads this`data, this`nread, this`nwrite, this`inserted, this`removed
    {
      && |data| == PIPESIZE && removed <= inserted && |inserted| <= |removed| + PIPESIZE
      && nread == Low32(|removed|) && nwrite == Low32(|inserted|)
      && forall k :: |removed| <= k < |inserted| ==> data[Slot(k)] == inserted[k]
    }

    /** A writer sleeps only on a full pipe whose read end is open. */
    ghost predicate Valid()
      reads this
    {
      Fifo() && (writers != {} ==> |inserted| == |removed| + PIPESIZE && readopen)
    }

    /** A reader is asleep although there are bytes to read. */
    ghost predicate Lost()
      reads this
    {
      readers != {} && |removed| < |inserted|
    }

    /** Whether pipewrite, with bytes `from` up to len still to write, gives up: it gets as far as the first position at
        which it finds the read end closed or itself killed, since there is room up to there and no copy fails. */
    ghost predicate GivesUp(len: nat, from: nat, killed: set<nat>, bad: nat)
      requires from <= len
      reads this
    {
      var stop := Stop(from, len, readopen, killed);
      stop < len && |inserted| + (stop - from) <= |removed| + PIPESIZE && !(from <= bad < stop)
    }

    constructor()
      ensures Valid() && readopen && writeopen && inserted == [] && removed == [] && readers == {} && writers == {}
    {
      data := seq(PIPESIZE, _ => 5);
      nread, nwrite, readopen, writeopen := 0, 0, true, true;
      readers, writers, inserted, removed := {}, {}, [], [];
    }

    method Full() returns (full: bool)
      requires Fifo()
      ensures full <==> |inserted| == |removed| + PIPESIZE
      ensures !full ==> |inserted| < |removed| + PIPESIZE
    {
      hide Low32, Slot;
      CounterStep(|removed|, PIPESIZE);
      CountersDiffer(|inserted|, |removed| + PIPESIZE);
      full := nwrite == Low32(nread + PIPESIZE);
    }

    method Empty() returns (empty: bool)
      requires Fifo()
      ensures empty <==> inserted == removed
      ensures !empty ==> |removed| < |inserted|
    {
      hide Low32, Slot;
      CountersDiffer(|removed|, |inserted|);
      empty := nread == nwrite;
    }

    method Put(ch: int)
      requires Fifo() && |inserted| < |removed| + PIPESIZE
      modifies this`data, this`nwrite, this`inserted
      ensures Fifo() && inserted == old(inserted) + [ch]
    {
      hide Low32, Slot;
      CounterStep(|inserted|, 1);
      forall k | |removed| <= k < |inserted| ensures Slot(k) != Slot(|inserted|) { SlotsDiffer(k, |inserted|); }
      data := data[Slot(nwrite) := ch];
      nwrite := Low32(nwrite + 1);
      inserted := inserted + [ch];
    }

    method Get() returns (ch: int)
      requires Fifo() && |removed| < |inserted|
      modifies this`nread, this`removed
      ensures Fifo() && removed == old(removed) + [ch]
    {
      hide Low32, Slot;
      CounterStep(|removed|, 1);
      ch := data[Slot(nread)];
      nread := Low32(nread + 1);
      removed := removed + [ch];
    }

    /** A stretch of pipewrite of process pid, which wrote from of its bytes before. pr->killed is seen set at the
        positions in killed, and copyin fails at position bad. */
    method Write(pid: nat, bytes: seq<int>, from: nat, killed: set<nat>, bad: nat) returns (o: Outcome, ghost i: nat)
      requires Valid() && pid !in readers && pid !in writers && from <= |bytes|
      modifies this
      ensures Valid() && removed == old(removed) && readopen == old(readopen) && writeopen == old(writeopen)
      ensures from <= i <= |bytes| && inserted == old(inserted) + bytes[from..i]
      ensures (i > from ==> readopen) && (from <= bad ==> i <= bad) && forall k :: from <= k < i ==> k !in killed
      ensures o.Asleep? ==> o.i == i && i < |bytes| && |inserted| == |removed| + PIPESIZE && readers == {} &&
                            writers == old(writers) + {pid}
      ensures o.Returned? && o.r >= 0 ==>
                o.r == i && (i == |bytes| || i == bad) && readers == {} && writers == old(writers)
      ensures o.Returned? && o.r < 0 ==> o.r == -1 && (!readopen || i in killed) && readers == old(readers) &&
                                         writers == old(writers)
      ensures o == Returned(-1) <==> old(GivesUp(|bytes|, from, killed, bad))
      ensures Lost() <==> old(GivesUp(|bytes|, from, killed, bad)) && old(readers) != {} &&
                          (Stop(from, |bytes|, readopen, killed) > from || old(Lost()))
    {
      hide Fifo, Stop;
      InBounds();
      FirstStop(from, |bytes|, readopen, killed);
      var at, full := Fill(bytes, from, killed, bad);
      i := at;
      InBounds();
      if at < |bytes| && (!readopen || at in killed) { return Returned(-1), i; }
      readers := {};
      if full {
        writers := writers + {pid};
        return Asleep(at), i;
      }
      o := Returned(at);
    }

    /** pipewrite's loop, up to the byte at which it gives up, finds the pipe full or cannot copy. */
    method Fill(bytes: seq<int>, from: nat, killed: set<nat>, bad: nat) returns (at: nat, full: bool)
      requires Fifo() && from <= |bytes|
      modifies this`data, this`nwrite, this`inserted
      ensures Fifo() && from <= at <= Stop(from, |bytes|, readopen, killed) && (from <= bad ==> at <= bad)
      ensures inserted == old(inserted) + bytes[from..at]
      ensures at > from ==> |old(inserted)| < |removed| + PIPESIZE
      ensures full ==> at < |bytes| && readopen && at !in killed && |inserted| == |removed| + PIPESIZE
      ensures !full ==> at == |bytes| || !readopen || at in killed || at == bad
    {
      hide Fifo, Stop;
      FirstStop(from, |bytes|, readopen, killed);
      at, full := from, false;
      while at < |bytes| && readopen && at !in killed
        invariant from <= at <= Stop(from, |bytes|, readopen, killed) && Fifo() && !full && (from <= bad ==> at <= bad)
        invariant inserted == old(inserted) + bytes[from..at]
        invariant at > from ==> |old(inserted)| < |removed| + PIPESIZE
      {
        full := Full();
        if full || at == bad { return; }
        Put(bytes[at]);
        at := at + 1;
      }
    }

    lemma InBounds()
      requires Fifo()
      ensures |removed| <= |inserted| <= |removed| + PIPESIZE && (|removed| == |inserted| ==> removed == inserted)
    {
    }

    /** A stretch of piperead of process pid. copyout fails at position bad; the byte is consumed all the same. */
    method Read(pid: nat, n: nat, killed: bool, bad: nat) returns (o: Outcome, got: seq<int>)
      requires Valid() && pid !in readers && pid !in writers
      modifies this
      ensures Valid() && inserted == old(inserted) && readopen == old(readopen) && writeopen == old(writeopen)
      ensures o.Asleep? <==> old(removed) == inserted && writeopen && !killed
      ensures o == Returned(-1) <==> old(removed) == inserted && writeopen && killed
      ensures o.Asleep? ==> removed == old(removed) == inserted && writeopen && !killed &&
                            readers == old(readers) + {pid} && writers == old(writers)
      ensures o == Returned(-1) ==> removed == old(removed) == inserted && writeopen && killed &&
                                    readers == old(readers) && writers == old(writers)
      ensures o.Returned? && o.r != -1 ==> o.r == |got| <= n && readers == old(readers) && writers == {}
      ensures o.Returned? && o.r != -1 ==>
                removed == old(removed) + got ||
                (|got| == bad < n && |removed| > |got| && removed[..|removed| - 1] == old(removed) + got)
      ensures o.Returned? && o.r != -1 ==> |got| == n || |got| == bad || removed == inserted
      ensures Lost() ==> old(Lost())
    {
      hide Fifo;
      InBounds();
      got := [];
      var empty := Empty();
      if empty && writeopen {
        if killed { return Returned(-1), []; }
        readers := readers + {pid};
        return Asleep(0), [];
      }
      var i := 0;
      while i < n
        invariant 0 <= i <= n && i == |got| && Fifo() && removed == old(removed) + got && inserted == old(inserted)
        invariant readers == old(readers) && writers == old(writers) && readopen == old(readopen) &&
                  writeopen == old(writeopen)
      {
        empty := Empty();
        if empty { break; }
        var ch := Get();
        if i == bad {
          assert removed[..|removed| - 1] == old(removed) + got;
          break;
        }
        got := got + [ch];
        i := i + 1;
      }
      InBounds();
      writers := {};
      o := Returned(i);
    }

    /** pipeclose; freed once both ends are closed. */
    method Close(writable: bool) returns (freed: bool)
      requires Valid()
      modifies this
      ensures Valid() && inserted == old(inserted) && removed == old(removed)
      ensures if writable then !writeopen && readopen == old(readopen) && readers == {} && writers == old(writers)
              else !readopen && writeopen == old(writeopen) && writers == {} && readers == old(readers)
      ensures freed <==> !readopen && !writeopen
    {
      if writable {
        writeopen := false;
        readers := {};
      } else {
        readopen := false;
        writers := {};
      }
      freed := !readopen && !writeopen;
    }

    /** kill: a sleeping process is made runnable whatever it waits for. */
    method Kill(pid: nat)
      requires Valid()
      modifies this`readers, this`writers
      ensures Valid() && readers == old(readers) - {pid} && writers == old(writers) - {pid}
    {
      readers, writers := readers - {pid}, writers - {pid};
    }
  }

  /** A reader can be left asleep on a pipe with data in it: the writer puts a byte in, then sees it was killed and
      returns without waking anyone. The contract of Write says exactly when that happens. */
  method LostWakeup() returns (p: Pipe)
    ensures fresh(p) && p.Valid() && p.Lost() && p.inserted == [7] && p.readers == {1} && p.writers == {}
  {
    p := new Pipe();
    var o, got := p.Read(1, 10, false, 10);
    ghost var i;
    o, i := p.Write(2, [7, 8], 0, {1}, 10);
  }
}
