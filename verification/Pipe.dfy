/** kernel/pipe.c. Each method is what a process does under the pipe's lock from one point where
    it can sleep to the next, so any sequence of calls is an interleaving of readers and writers.
 */
module Pipe {

  const PIPESIZE: nat := 512
  const WRAP: nat := 0x1_0000_0000            // nread and nwrite are 32 bits wide

  type Byte = b: nat | b < 256

  /** How a process leaves the pipe's lock. */
  datatype Outcome = Return(n: int) | Sleep

  /** A 32-bit counter and the count it stands for. */
  predicate Counts(x: nat, k: nat)
  {
    x == k % WRAP
  }

  lemma Advance(x: nat, k: nat)
    requires Counts(x, k)
    ensures Counts((x + 1) % WRAP, k + 1) && x % PIPESIZE == k % PIPESIZE
  {
  }

  /** The counters tell empty and full apart, wrapped or not. */
  lemma Compare(r: nat, out: nat, w: nat, stored: nat)
    requires Counts(r, out) && Counts(w, stored) && out <= stored <= out + PIPESIZE
    ensures (r == w <==> stored == out) && (w == (r + PIPESIZE) % WRAP <==> stored == out + PIPESIZE)
  {
  }

  /** The bytes stored and not yet read are in the buffer. */
  ghost predicate Buffered(data: seq<Byte>, stored: seq<Byte>, out: nat)
  {
    && |data| == PIPESIZE && out <= |stored| <= out + PIPESIZE
    && forall k: nat :: out <= k < |stored| ==> data[k % PIPESIZE] == stored[k]
  }

  lemma SlotsDiffer(k: nat, j: nat)
    requires k < j < k + PIPESIZE
    ensures k % PIPESIZE != j % PIPESIZE
  {
  }

  lemma StoreOne(data: seq<Byte>, stored: seq<Byte>, out: nat, b: Byte)
    requires Buffered(data, stored, out) && |stored| < out + PIPESIZE
    ensures Buffered(data[|stored| % PIPESIZE := b], stored + [b], out)
  {
    var n := |stored|;
    forall k: nat | out <= k < n
      ensures k % PIPESIZE != n % PIPESIZE
    {
      SlotsDiffer(k, n);
    }
  }

  class Pipe {
    var data: seq<Byte>
    var nread: nat
    var nwrite: nat
    var readopen: bool
    var writeopen: bool
    var readerAsleep: bool              // some process sleeps on &pi->nread
    var writerAsleep: bool              // some process sleeps on &pi->nwrite
    ghost var stored: seq<Byte>         // every byte ever stored
    ghost var out: seq<Byte>            // every byte ever taken out

    ghost predicate Valid()
      reads this
    {
      && Buffered(data, stored, |out|) && out == stored[..|out|]
      && Counts(nread, |out|) && Counts(nwrite, |stored|)
    }

    /** No reader sleeps next to data, or next to a closed write end. */
    ghost predicate ReadersServed()
      reads this
    {
      readerAsleep ==> |stored| == |out| && writeopen
    }

    /** No writer sleeps next to room, or next to a closed read end. */
    ghost predicate WritersServed()
      reads this
    {
      writerAsleep ==> |stored| == |out| + PIPESIZE && readopen
    }

    /** pipealloc; the page from kalloc holds whatever it held. */
    constructor (page: seq<Byte>)
      requires |page| == PIPESIZE
      ensures Valid() && stored == [] && readopen && writeopen && ReadersServed() && WritersServed()
    {
      data, nread, nwrite := page, 0, 0;
      readopen, writeopen, readerAsleep, writerAsleep := true, true, false, false;
      stored, out := [], [];
    }

    /** pipeclose, up to kfree of a pipe that both ends have left. */
    method Close(writable: bool) returns (freed: bool)
      requires Valid()
      modifies this`readopen, this`writeopen, this`readerAsleep, this`writerAsleep
      ensures Valid() && freed == (!readopen && !writeopen)
      ensures writable ==> !writeopen && readopen == old(readopen) && !readerAsleep && writerAsleep == old(writerAsleep)
      ensures !writable ==>
                !readopen && writeopen == old(writeopen) && !writerAsleep && readerAsleep == old(readerAsleep)
      ensures old(ReadersServed()) ==> ReadersServed()
      ensures old(WritersServed()) ==> WritersServed()
    {
      if writable {
        writeopen := false;
        readerAsleep := false;
      } else {
        readopen := false;
        writerAsleep := false;
      }
      freed := !readopen && !writeopen;
    }

    /** pipewrite from byte i on, until it returns or has to sleep. copied is how many bytes of
        src can be copied in; killed is the index from which on the loop finds the process
        killed. A sleeping reader is left next to data just when the writer stored something it
        could copy and had room for, and was then found killed with bytes still to write. */
    method Write(src: seq<Byte>, i: nat, copied: nat, killed: nat) returns (r: Outcome, i': nat)
      requires Valid() && i <= |src| && copied <= |src|
      modifies this`data, this`nwrite, this`readerAsleep, this`writerAsleep, this`stored
      ensures Valid() && i <= i' <= |src| && stored == old(stored) + src[i..i']
      ensures (i' > i ==> i' <= killed && i' <= copied)
      ensures r == Sleep ==>
                i' < |src| && |stored| == |out| + PIPESIZE && readopen && i' < killed && writerAsleep && !readerAsleep
      ensures r == Return(-1) <==> i' < |src| && (!readopen || i' >= killed)
      ensures r.Return? && r.n != -1 ==> r.n == i' && (i' == |src| || i' >= copied) && !readerAsleep
      ensures r.Return? ==> writerAsleep == old(writerAsleep)
      ensures r == Return(-1) ==> readerAsleep == old(readerAsleep)
      ensures old(ReadersServed()) ==>
                (ReadersServed() <==> !(old(readerAsleep) && readopen && i < killed < |src| && killed <= copied
                                        && killed - i <= PIPESIZE))
      ensures old(WritersServed()) ==> WritersServed()
    {
      hide Buffered, Counts;
      Sizes(data, stored, |out|);
      i' := i;
      while i' < |src|
        invariant i <= i' <= |src| && Valid() && stored == old(stored) + src[i..i']
        invariant (i' > i ==> i' <= killed && i' <= copied)
        invariant readerAsleep == old(readerAsleep) && writerAsleep == old(writerAsleep)
        invariant old(WritersServed()) && writerAsleep ==> i' == i
        invariant i' > i ==> readopen
        decreases |src| - i'
      {
        if !readopen || i' >= killed {
          Sizes(data, stored, |out|);
          return Return(-1), i';
        }
        Sizes(data, stored, |out|);
        Compare(nread, |out|, nwrite, |stored|);
        if nwrite == (nread + PIPESIZE) % WRAP {
          readerAsleep := false;
          writerAsleep := true;
          return Sleep, i';
        } else {
          if i' >= copied {
            break;
          }
          Advance(nwrite, |stored|);
          StoreOne(data, stored, |out|, src[i']);
          data := data[nwrite % PIPESIZE := src[i']];
          nwrite := (nwrite + 1) % WRAP;
          stored := stored + [src[i']];
          i' := i' + 1;
        }
      }
      readerAsleep := false;
      return Return(i'), i';
    }

    /** piperead, until it returns or has to sleep. copied is how many bytes can be copied out
        before that fails; the byte whose copy fails has left the pipe and is lost. */
    method Read(n: nat, copied: nat, killed: bool) returns (r: Outcome, got: seq<Byte>)
      requires Valid() && readopen
      modifies this`nread, this`readerAsleep, this`writerAsleep, this`out
      ensures Valid() && old(out) <= out
      ensures r == Sleep <==> old(out) == stored && writeopen && !killed
      ensures r == Return(-1) <==> old(out) == stored && writeopen && killed
      ensures r == Sleep || r == Return(-1) ==> out == old(out) && writerAsleep == old(writerAsleep)
      ensures r == Sleep ==> readerAsleep
      ensures r.Return? && r.n >= 0 ==>
                var avail := |stored| - |old(out)|;
                && r.n == |got| == Least(n, avail, copied)
                && got == stored[|old(out)|..|old(out)| + |got|]
                && !writerAsleep
                && |out| == |old(out)| + |got| + (if copied < n && copied < avail then 1 else 0)
      ensures r == Return(0) && n > 0 && copied > 0 ==> !writeopen && out == stored
      ensures r.Return? ==> readerAsleep == old(readerAsleep)
      ensures old(ReadersServed()) ==> ReadersServed()
      ensures old(WritersServed()) ==> WritersServed()
    {
      hide Buffered, Counts;
      got := [];
      Sizes(data, stored, |out|);
      Compare(nread, |out|, nwrite, |stored|);
      if nread == nwrite && writeopen {
        if killed {
          return Return(-1), [];
        }
        readerAsleep := true;
        return Sleep, [];
      }
      ghost var n0 := |out|;
      var i := 0;
      while i < n
        invariant 0 <= i <= n && i == |got| && i <= copied && Valid() && |out| == n0 + i <= |stored|
        invariant got == stored[n0..n0 + i] && readerAsleep == old(readerAsleep) && old(out) <= out
      {
        Sizes(data, stored, |out|);
        Compare(nread, |out|, nwrite, |stored|);
        if nread == nwrite {
          break;
        }
        Advance(nread, |out|);
        TakeOne(data, stored, |out|);
        var ch := data[nread % PIPESIZE];
        nread := (nread + 1) % WRAP;
        out := out + [ch];
        if i >= copied {
          break;
        }
        got := got + [ch];
        i := i + 1;
      }
      writerAsleep := false;
      return Return(i), got;
    }
  }

  lemma Sizes(data: seq<Byte>, stored: seq<Byte>, out: nat)
    requires Buffered(data, stored, out)
    ensures |data| == PIPESIZE && out <= |stored| <= out + PIPESIZE
  {
  }

  function Least(a: nat, b: nat, c: nat): nat
  {
    if a <= b && a <= c then a else if b <= c then b else c
  }

  lemma TakeOne(data: seq<Byte>, stored: seq<Byte>, out: nat)
    requires Buffered(data, stored, out) && out < |stored|
    ensures data[out % PIPESIZE] == stored[out] && Buffered(data, stored, out + 1)
    ensures stored[..out] + [stored[out]] == stored[..out + 1]
  {
  }

  /** A writer that is killed after it has stored bytes returns without waking the readers: one
      can go on sleeping next to data. */
  method StrandedReader(page: seq<Byte>) returns (p: Pipe)
    requires |page| == PIPESIZE
    ensures p.Valid() && p.readerAsleep && p.stored == [1] && p.out == []
  {
    p := new Pipe(page);
    var r, got := p.Read(1, 1, false);
    var w, i := p.Write([1, 2], 0, 2, 1);
    assert i == 1 && p.stored == [] + [1, 2][0..1];
  }
}
