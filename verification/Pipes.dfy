/**
 * The kernel pipe in place: a ring of 4096 bytes and two queues of waiters.
 * Each section is tied to the step of `PipeProtocol` it implements.
 */
module Pipes {
  import opened Options
  import opened PipeCalls
  import opened PipeProtocol

  /** `n` bytes of the ring from place `r` on. */
  ghost function Span(b: seq<Byte>, r: nat, n: nat): (c: seq<Byte>)
    requires |b| == PIPE_CAP
    ensures |c| == n && forall i | 0 <= i < n :: c[i] == b[(r + i) % PIPE_CAP]
  {
    seq(n, i requires 0 <= i < n => b[(r + i) % PIPE_CAP])
  }

  lemma SpanTail(b: seq<Byte>, r: nat, n: nat)
    requires |b| == PIPE_CAP && r < PIPE_CAP && n > 0
    ensures Span(b, r, n) == [b[r]] + Span(b, (r + 1) % PIPE_CAP, n - 1)
  {
    var s := Span(b, (r + 1) % PIPE_CAP, n - 1);
    forall i | 0 <= i < n - 1 ensures Span(b, r, n)[i + 1] == s[i] {
      assert (r + (i + 1)) % PIPE_CAP == ((r + 1) % PIPE_CAP + i) % PIPE_CAP;
    }
  }

  lemma SpanSnoc(b: seq<Byte>, r: nat, n: nat, x: Byte)
    requires |b| == PIPE_CAP && r < PIPE_CAP && n < PIPE_CAP
    ensures Span(b[(r + n) % PIPE_CAP := x], r, n + 1) == Span(b, r, n) + [x]
    ensures (r + n + 1) % PIPE_CAP == ((r + n) % PIPE_CAP + 1) % PIPE_CAP
  {
    var c := b[(r + n) % PIPE_CAP := x];
    forall i | 0 <= i < n ensures Span(c, r, n + 1)[i] == Span(b, r, n)[i] {
      assert (r + i) % PIPE_CAP != (r + n) % PIPE_CAP;
    }
  }

  class KPipe {
    const buf: array<Byte>
    var r: nat
    var w: nat
    var size: nat
    var readers: nat
    var writers: nat
    var rq: seq<Pid>
    var wq: seq<Pid>
    ghost var procs: seq<Phase>      // where the processes that use it are
    ghost var written: seq<Byte>     // the history of the stream
    ghost var taken: seq<Byte>

    ghost predicate Ring()
      reads this`r, this`w, this`size
    {
      buf.Length == PIPE_CAP && r < PIPE_CAP && size <= PIPE_CAP && w == (r + size) % PIPE_CAP
    }

    /** The bytes in the ring, oldest first. */
    ghost function Contents(): (c: seq<Byte>)
      requires Ring()
      reads this`r, this`w, this`size, buf
      ensures |c| == size
    {
      Span(buf[..], r, size)
    }

    ghost function View(): Pipe
      requires Ring()
      reads this, buf
    {
      Pipe(Contents(), readers, writers, rq, wq, procs, written, taken)
    }

    /** As `kpipe_open` sets up a new pipe. */
    constructor (forRead: bool, forWrite: bool)
      ensures Ring() && View() == Step(Initial(0), Open(forRead, forWrite))
    {
      buf := new Byte[PIPE_CAP](i => 0);
      r, w, size := 0, 0, 0;
      readers, writers := if forRead then 1 else 0, if forWrite then 1 else 0;
      rq, wq, procs, written, taken := [], [], [], [], [];
    }

    /** One byte out of the ring. */
    method TakeByte() returns (x: Byte)
      requires Ring() && size > 0
      modifies this`r, this`size
      ensures Ring() && old(Contents()) == [x] + Contents()
    {
      SpanTail(buf[..], r, size);
      x := buf[r];
      r := (r + 1) % PIPE_CAP;
      size := size - 1;
    }

    /** One byte into the ring. */
    method PutByte(x: Byte)
      requires Ring() && size < PIPE_CAP
      modifies this`w, this`size, buf
      ensures Ring() && Contents() == old(Contents()) + [x]
    {
      ghost var b := buf[..];
      SpanSnoc(b, r, size, x);
      buf[w] := x;
      assert buf[..] == b[(r + size) % PIPE_CAP := x];
      w := (w + 1) % PIPE_CAP;
      size := size + 1;
    }

    /** The copying loop of `kpipe_read`. */
    method CopyOut(dest: array<Byte>, k: nat)
      requires Ring() && k <= size && k <= dest.Length && dest != buf
      modifies this`r, this`size, dest
      ensures Ring() && old(Contents()) == dest[..k] + Contents()
      ensures dest[k..] == old(dest[k..])
    {
      ghost var c := Contents();
      for i := 0 to k
        invariant Ring() && c[i..] == Contents()
        invariant forall j | 0 <= j < i :: dest[j] == c[j]
        invariant forall j | k <= j < dest.Length :: dest[j] == old(dest[j])
      {
        ghost var rest := Contents();
        var x := TakeByte();
        dest[i] := x;
        assert rest[1..] == Contents() && c[i + 1..] == c[i..][1..];
      }
      assert c == c[..k] + c[k..] && c[..k] == dest[..k];
    }

    /** The copying loop of `kpipe_write`. */
    method CopyIn(src: seq<Byte>, k: nat)
      requires Ring() && k <= |src| && k <= PIPE_CAP - size
      modifies this`w, this`size, buf
      ensures Ring() && Contents() == old(Contents()) + src[..k]
    {
      for i := 0 to k
        invariant Ring() && Contents() == old(Contents()) + src[..i]
      {
        PutByte(src[i]);
        assert src[..i + 1] == src[..i] + [src[i]];
      }
    }

    /** The first section of `kpipe_read` for process `p`: some bytes, end of file, or nothing yet. */
    method Read(ghost p: Pid, dest: array<Byte>, n: Pos) returns (out: Outcome, wake: Option<Pid>)
      requires Ring() && dest != buf && n <= dest.Length
      modifies this`r, this`size, this`wq, this`procs, this`taken, dest
      ensures Ring() && View() == ReadSection(old(View()), p, n)
      ensures out == if old(size) > 0 then Done(Min(old(size), n)) else if writers == 0 then Done(0) else Block
      ensures out.Done? ==> View().taken == old(taken) + dest[..out.n]
      ensures old(size) > 0 ==>
                && out.Done? && 0 < out.n <= n && (out.n == n || size == 0)
                && old(Contents()) == dest[..out.n] + Contents()
      ensures wake == if old(size) > 0 && old(wq) != [] then Some(old(wq)[0]) else None
    {
      ghost var s := View();
      wake := None;
      if size > 0 {
        var k := if size < n then size else n;
        CopyOut(dest, k);
        assert s.contents[..k] == dest[..k] && s.contents[k..] == Contents();
        taken := taken + dest[..k];
        if wq != [] {
          wake := Some(wq[0]);
          wq := wq[1..];
        }
        out := Done(k);
      } else if writers == 0 {
        out := Done(0);
      } else {
        out := Block;
      }
      procs := ReadSection(s, p, n).procs;
    }

    /** The second one: the caller has its waiter and is `p`. */
    method ReadAgain(p: Pid, ghost n: Pos) returns (out: Outcome)
      requires Ring()
      modifies this`rq, this`procs
      ensures Ring() && View() == ReadRecheck(old(View()), p, n)
      ensures out == if size > 0 then Retry else if writers == 0 then Done(0) else Block
    {
      ghost var s := View();
      if size > 0 {
        out := Retry;
      } else if writers == 0 {
        out := Done(0);
      } else {
        rq := rq + [p];
        out := Block;
      }
      procs := ReadRecheck(s, p, n).procs;
    }

    /** The first section of `kpipe_write`. */
    method Write(ghost p: Pid, src: seq<Byte>) returns (out: Outcome, wake: Option<Pid>)
      requires Ring()
      modifies this`w, this`size, this`rq, this`procs, this`written, buf
      ensures Ring() && View() == WriteSection(old(View()), p, src)
      ensures out == if readers == 0 then Done(-1) else if old(size) < PIPE_CAP then Done(Min(PIPE_CAP - old(size), |src|)) else Block
      ensures out.Done? && out.n >= 0 ==> View().written == old(written) + src[..out.n]
      ensures readers > 0 && old(size) < PIPE_CAP && src != [] ==>
                && out.Done? && 0 < out.n <= |src| && (out.n == |src| || size == PIPE_CAP)
                && Contents() == old(Contents()) + src[..out.n]
      ensures wake == if readers > 0 && old(size) < PIPE_CAP && old(rq) != [] then Some(old(rq)[0]) else None
    {
      ghost var s := View();
      wake := None;
      if readers == 0 {
        out := Done(-1);
      } else if size < PIPE_CAP {
        var space := PIPE_CAP - size;
        var k := if space < |src| then space else |src|;
        CopyIn(src, k);
        written := written + src[..k];
        if rq != [] {
          wake := Some(rq[0]);
          rq := rq[1..];
        }
        out := Done(k);
      } else {
        out := Block;
      }
      procs := WriteSection(s, p, src).procs;
    }

    method WriteAgain(p: Pid, ghost src: seq<Byte>) returns (out: Outcome)
      requires Ring()
      modifies this`wq, this`procs
      ensures Ring() && View() == WriteRecheck(old(View()), p, src)
      ensures out == if size < PIPE_CAP then Retry else Block
    {
      ghost var s := View();
      if size < PIPE_CAP {
        out := Retry;
      } else {
        wq := wq + [p];
        out := Block;
      }
      procs := WriteRecheck(s, p, src).procs;
    }

    /** The first section of `kpipe_close`: who must be woken, and whether the pipe is to be freed if `unlinked`. */
    method Close(ghost p: Pid, wasRead: bool, wasWrite: bool) returns (wakeReaders: bool, wakeWriters: bool, last: bool)
      requires Ring() && p < |procs|
      modifies this`readers, this`writers, this`procs
      ensures Ring() && View() == CloseSection(old(View()), p, wasRead, wasWrite)
      ensures procs[p] == Closing(wakeReaders, wakeWriters, None) && last == (readers == 0 && writers == 0)
    {
      ghost var s := View();
      if wasRead && readers > 0 {
        readers := readers - 1;
      }
      if wasWrite && writers > 0 {
        writers := writers - 1;
      }
      wakeReaders := writers == 0 && rq != [];
      wakeWriters := readers == 0 && wq != [];
      last := readers == 0 && writers == 0;
      procs := CloseSection(s, p, wasRead, wasWrite).procs;
    }

    /** The loop that wakes everybody in the readers' queue. */
    method WakeReaders() returns (woken: seq<Pid>)
      modifies this`rq, this`procs
      ensures rq == [] && woken == old(rq) && procs == AllAwake(old(procs), woken)
    {
      woken := [];
      assert AllAwake(procs, []) == procs;
      while rq != []
        invariant woken + rq == old(rq) && procs == AllAwake(old(procs), woken)
        decreases |rq|
      {
        var proc := rq[0];
        rq := rq[1..];
        AwakeAppend(old(procs), woken, [proc]);
        procs := AllAwake(procs, [proc]);
        woken := woken + [proc];
      }
    }

    method WakeWriters() returns (woken: seq<Pid>)
      modifies this`wq, this`procs
      ensures wq == [] && woken == old(wq) && procs == AllAwake(old(procs), woken)
    {
      woken := [];
      assert AllAwake(procs, []) == procs;
      while wq != []
        invariant woken + wq == old(wq) && procs == AllAwake(old(procs), woken)
        decreases |wq|
      {
        var proc := wq[0];
        wq := wq[1..];
        AwakeAppend(old(procs), woken, [proc]);
        procs := AllAwake(procs, [proc]);
        woken := woken + [proc];
      }
    }

    /** The whole of `kpipe_close`; `woken` are the calls of proc_unblock, in order. */
    method CloseEnd(ghost p: Pid, wasRead: bool, wasWrite: bool) returns (woken: seq<Pid>, last: bool)
      requires Ring() && QueuesOk(View()) && p < |procs| && procs[p].Idle?
      modifies this`readers, this`writers, this`rq, this`wq, this`procs
      ensures Ring() && View() == FinishClose(CloseSection(old(View()), p, wasRead, wasWrite), p)
      ensures woken == (if writers == 0 then old(rq) else []) + (if readers == 0 then old(wq) else [])
      ensures last == (readers == 0 && writers == 0)
    {
      ghost var s := View();
      CloseWakes(s, p, wasRead, wasWrite);
      var wakeReaders, wakeWriters;
      wakeReaders, wakeWriters, last := Close(p, wasRead, wasWrite);
      var woken' := [];
      woken := [];
      if wakeReaders {
        woken := WakeReaders();
      }
      if wakeWriters {
        woken' := WakeWriters();
      }
      woken := woken + woken';
      procs := AllAwake(s.procs, woken);
    }
  }

  lemma AwakeAppend(procs: seq<Phase>, a: seq<Pid>, b: seq<Pid>)
    ensures AllAwake(AllAwake(procs, a), b) == AllAwake(procs, a + b)
  {
  }

  /** What a section tells its caller: return this, block, or look again. */
  datatype Outcome = Done(n: int) | Block | Retry
}
