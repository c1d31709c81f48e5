/** kernel/pipe.c: a bounded first-in first-out buffer and those asleep on it. */
module Pipe {
  import opened Blocks

  const PIPESIZE: nat := 512

  function Wrap(n: nat): nat { n % UINT_MAX }
  function Cell(n: nat): (k: nat)
    ensures k < PIPESIZE
  { n % PIPESIZE }

  /** How a stretch of a call that holds the lock ends. */
  datatype Outcome = Returned(value: int) | Asleep

  // ----------------------------------------------------------- the ring of bytes

  /** The buffer holds the bytes sent and not yet taken, oldest first. */
  ghost predicate Holds(data: seq<byte>, nread: nat, nwrite: nat, sent: seq<byte>, got: seq<byte>) {
    && |data| == PIPESIZE && got <= sent && |sent| - |got| <= PIPESIZE
    && nread == Wrap(|got|) && nwrite == Wrap(|sent|)
    && (forall k: nat :: |got| <= k < |sent| ==> data[Cell(k)] == sent[k])
  }

  lemma CellOfWrap(n: nat)
    ensures Cell(Wrap(n)) == Cell(n) && Wrap(Wrap(n) + 1) == Wrap(n + 1)
            && Wrap(Wrap(n) + PIPESIZE) == Wrap(n + PIPESIZE)
  {
    var q, m := n / UINT_MAX, n % UINT_MAX;
    assert n == PIPESIZE * (q * 0x80_0000) + m;
    CellPeriod(q * 0x80_0000, m);
  }

  lemma CellPeriod(k: nat, m: nat)
    ensures Cell(PIPESIZE * k + m) == Cell(m)
  {
  }

  lemma CellsApart(a: nat, b: nat)
    requires a < b < a + PIPESIZE
    ensures Cell(a) != Cell(b)
  {
  }

  lemma WrapsApart(a: nat, k: nat)
    requires k <= PIPESIZE
    ensures (Wrap(a) == Wrap(a + k) <==> k == 0) && (Wrap(a + PIPESIZE) == Wrap(a + k) <==> k == PIPESIZE)
  {
  }

  /** The two tests the code makes on its 32-bit counters mean empty and full. */
  lemma Tests(data: seq<byte>, nread: nat, nwrite: nat, sent: seq<byte>, got: seq<byte>)
    requires Holds(data, nread, nwrite, sent, got) == true
    ensures nread == nwrite <==> |sent| == |got|
    ensures nwrite == Wrap(nread + PIPESIZE) <==> |sent| - |got| == PIPESIZE
    ensures |data| == PIPESIZE && got <= sent && |sent| - |got| <= PIPESIZE
  {
    var k := |sent| - |got|;
    WrapsApart(|got|, k);
    CellOfWrap(|got|);
    assert |got| + k == |sent|;
    hide Wrap, Cell;
  }

  lemma Append(data: seq<byte>, nread: nat, nwrite: nat, sent: seq<byte>, got: seq<byte>, ch: byte)
    requires Holds(data, nread, nwrite, sent, got) == true && |sent| - |got| < PIPESIZE && |data| == PIPESIZE
    ensures Holds(data[Cell(nwrite) := ch], nread, Wrap(nwrite + 1), sent + [ch], got) == true
  {
    CellOfWrap(|sent|);
    var data', sent' := data[Cell(nwrite) := ch], sent + [ch];
    forall k: nat | |got| <= k < |sent'| ensures data'[Cell(k)] == sent'[k] {
      if k < |sent| { CellsApart(k, |sent|); }
    }
    hide Wrap, Cell;
  }

  lemma Take(data: seq<byte>, nread: nat, nwrite: nat, sent: seq<byte>, got: seq<byte>)
    requires Holds(data, nread, nwrite, sent, got) == true && |got| < |sent| && |data| == PIPESIZE
    ensures data[Cell(nread)] == sent[|got|]
    ensures Holds(data, Wrap(nread + 1), nwrite, sent, got + [sent[|got|]]) == true
  {
    CellOfWrap(|got|);
    assert data[Cell(|got|)] == sent[|got|];
    hide Wrap, Cell;
  }

  // ----------------------------------------------------------------------- sleepers

  /** With the lock free: readers sleep only while the pipe is empty and can still
      be written, writers only while it is full and can still be read. */
  ghost predicate NoneForgotten(sent: seq<byte>, got: seq<byte>, readopen: bool, writeopen: bool, readers: set<nat>,
                                writers: set<nat>) {
    && (readers != {} ==> |sent| == |got| && writeopen)
    && (writers != {} ==> |sent| - |got| == PIPESIZE && readopen)
  }

  lemma NeverBothAsleep(sent: seq<byte>, got: seq<byte>, readopen: bool, writeopen: bool, readers: set<nat>,
                        writers: set<nat>)
    requires NoneForgotten(sent, got, readopen, writeopen, readers, writers)
    ensures readers == {} || writers == {}
  {
  }

  /** pipewrite is about to forget a reader: it will find its process killed after it
      has appended something to an empty pipe on which a reader sleeps, and before it
      is through. Readers, both counts of bytes and `fatal` are known before the call. */
  predicate ForgetsReader(readers: set<nat>, readopen: bool, i0: nat, n: int, avail: nat, fatal: int) {
    readers != {} && readopen && i0 < fatal < n && fatal <= avail && fatal - i0 <= PIPESIZE
  }

  /** Of `want` bytes `out` got the first ones, as many as copyout could store; all
      of `want` are gone from the pipe, or those in `out` and the one that failed. */
  ghost predicate Consumed(sent: seq<byte>, got: seq<byte>, got': seq<byte>, out: seq<byte>, want: nat, avail: nat)
    requires |got| + want <= |sent|
  {
    && out == sent[|got|..|got| + Min(want, avail)]
    && got' == sent[..|got| + Min(want, avail + 1)]
  }

  function Min(a: nat, b: nat): nat { if a < b then a else b }

  /** How many bytes piperead may take. */
  function Wanted(n: int, sent: nat, got: nat): nat
    requires got <= sent
  {
    Min(if n > 0 then n else 0, sent - got)
  }

  class Pipe {
    const data: array<byte>
    var nread: nat
    var nwrite: nat
    var readopen: bool
    var writeopen: bool
    var readers: set<nat>        // asleep on &pi->nread
    var writers: set<nat>        // asleep on &pi->nwrite
    ghost var sent: seq<byte>    // every byte ever appended
    ghost var got: seq<byte>     // every byte ever consumed

    ghost predicate Fifo()
      reads this, data
    {
      data.Length == PIPESIZE && Holds(data[..], nread, nwrite, sent, got)
    }

    ghost predicate Calm()
      reads this
    {
      NoneForgotten(sent, got, readopen, writeopen, readers, writers)
    }

    constructor ()
      ensures Fifo() && Calm() && fresh(data) && sent == [] && got == [] && readers == {} && writers == {} && readopen
              && writeopen
    {
      data := new byte[PIPESIZE](_ => 0);
      nread, nwrite, readopen, writeopen, readers, writers := 0, 0, true, true, {}, {};
      sent, got := [], [];
    }

    /** pipeclose: whoever waits for the other end is woken; true when the pipe is freed. */
    method Close(writable: bool) returns (gone: bool)
      requires Fifo()
      modifies this`readopen, this`writeopen, this`readers, this`writers
      ensures Fifo() && (old(Calm()) ==> Calm())
      ensures gone <==> !readopen && !writeopen
      ensures readopen == (old(readopen) && writable) && writeopen == (old(writeopen) && !writable)
      ensures readers == (if writable then {} else old(readers)) && writers == if writable then old(writers) else {}
    {
      if writable {
        writeopen := false;
        readers := {};
      } else {
        readopen := false;
        writers := {};
      }
      gone := !readopen && !writeopen;
    }

    /** kill() of a process asleep here makes it run again. */
    method Kill(t: nat)
      modifies this`readers, this`writers
      ensures readers == old(readers) - {t} && writers == old(writers) - {t} && (old(Calm()) ==> Calm())
    {
      readers := readers - {t};
      writers := writers - {t};
    }

    /** pipewrite from taking the lock, with i0 bytes of src written before, to
        letting it go. copyin can read `avail` bytes of src; the process is seen to
        be killed once `fatal` bytes have been written (never, if negative). */
    method Write(w: nat, src: seq<byte>, i0: nat, n: int, avail: nat, fatal: int) returns (r: Outcome, i: nat)
      requires Fifo() && w !in readers && w !in writers && i0 <= |src| && n <= |src| && (i0 <= n || i0 == 0)
      modifies this`nwrite, this`readers, this`writers, this`sent, data
      ensures Fifo() && i0 <= i && (i <= n || i == i0) && i <= |src| && sent == old(sent) + src[i0..i]
      ensures r == Asleep || r == Returned(-1) || r == Returned(i)
      ensures i > i0 ==> readopen && !(0 <= fatal < i) && i <= avail
      ensures r == Asleep <==> i < n && readopen && !(0 <= fatal <= i) && |sent| - |got| == PIPESIZE
      ensures r == Returned(-1) <==> i < n && (!readopen || 0 <= fatal <= i)
      ensures r == Returned(i) <==>
              i >= n || (readopen && !(0 <= fatal <= i) && |sent| - |got| < PIPESIZE && i >= avail)
      ensures r == Asleep ==> writers == old(writers) + {w} && readers == {}
      ensures r == Returned(i) ==> readers == {} && writers == old(writers)
      ensures r == Returned(-1) ==> readers == old(readers) && writers == old(writers)
      ensures old(Calm()) ==> (Calm() <==> !ForgetsReader(old(readers), readopen, i0, n, avail, fatal))
    {
      i := i0;
      while i < n
        invariant data.Length == PIPESIZE && Holds(data[..], nread, nwrite, sent, got) == true
        invariant i0 <= i && (i <= n || i == i0) && i <= |src| && sent == old(sent) + src[i0..i]
        invariant (i > i0 ==> readopen && !(0 <= fatal < i) && i <= avail) && readers == old(readers)
                && writers == old(writers)
      {
        if !readopen || 0 <= fatal <= i {
          return Returned(-1), i;
        }
        Tests(data[..], nread, nwrite, sent, got);
        if nwrite == Wrap(nread + PIPESIZE) {
          readers := {};
          writers := writers + {w};
          return Asleep, i;
        }
        if i >= avail {
          break;
        }
        Append(data[..], nread, nwrite, sent, got, src[i]);
        data[Cell(nwrite)] := src[i];
        nwrite := Wrap(nwrite + 1);
        sent := sent + [src[i]];
        i := i + 1;
      }
      readers := {};
      return Returned(i), i;
    }

    /** piperead from taking the lock to letting it go. copyout can store `avail`
        bytes; a byte it cannot store is consumed all the same. */
    method Read(t: nat, n: int, avail: nat, killed: bool) returns (r: Outcome, out: seq<byte>)
      requires Fifo() == true && t !in readers && t !in writers
      modifies this`nread, this`readers, this`writers, this`got
      ensures Fifo() == true && old(got) <= sent
      ensures r == Asleep <==> |sent| == |old(got)| && writeopen && !killed
      ensures r == Returned(-1) <==> |sent| == |old(got)| && writeopen && killed
      ensures r == Asleep ==> got == old(got) && readers == old(readers) + {t} && writers == old(writers)
      ensures r == Returned(-1) ==> got == old(got) && readers == old(readers) && writers == old(writers)
      ensures r.Returned? && r.value != -1 ==>
                && r.value == |out| && writers == {} && readers == old(readers)
                && Consumed(sent, old(got), got, out, Wanted(n, |sent|, |old(got)|), avail)
      ensures old(Calm()) ==> Calm()
    {
      hide Holds, Wrap, Cell;
      Tests(data[..], nread, nwrite, sent, got);
      if nread == nwrite && writeopen {
        if killed {
          return Returned(-1), [];
        }
        readers := readers + {t};
        return Asleep, [];
      }
      out := CopyOut(n, avail);
      writers := {};
      return Returned(|out|), out;
    }

    /** piperead's copying loop. */
    method CopyOut(n: int, avail: nat) returns (out: seq<byte>)
      requires Fifo() == true
      modifies this`nread, this`got
      ensures Fifo() == true && old(got) <= sent
              && Consumed(sent, old(got), got, out, Wanted(n, |sent|, |old(got)|), avail)
    {
      hide Holds, Wrap, Cell;
      out := [];
      Tests(data[..], nread, nwrite, sent, got);
      ghost var g, want := |got|, Wanted(n, |sent|, |got|);
      while |out| < n
        invariant Holds(data[..], nread, nwrite, sent, got) == true && |out| <= want && |out| <= avail
        invariant got == sent[..g + |out|] && out == sent[g..g + |out|]
        decreases n - |out|
      {
        Tests(data[..], nread, nwrite, sent, got);
        if nread == nwrite {
          break;
        }
        Take(data[..], nread, nwrite, sent, got);
        var ch := data[Cell(nread)];
        nread := Wrap(nread + 1);
        got := got + [ch];
        if |out| >= avail {
          break;
        }
        out := out + [ch];
      }
    }

    /** A reader that slept for ever: it finds the pipe empty; a writer appends a byte
        and, killed before its next turn, returns without waking it. */
    static method LostWakeup() returns (p: Pipe)
      ensures fresh(p) && p.readers == {1} && |p.sent| - |p.got| == 1 && !p.Calm()
    {
      p := new Pipe();
      var _, _ := p.Read(1, 1, 1, false);
      var _, i := p.Write(2, [7, 7], 0, 2, 2, 1);
      assert i == 1;
    }
  }
}
