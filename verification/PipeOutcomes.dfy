/** What each section of a pipe call leaves behind: how much is moved, who waits, and who is woken. */
module PipeOutcomes {
  import opened Options
  import opened PipeProtocol

  /** Nobody but `p`, and nothing of the pipe but what is named, changes. */
  ghost predicate OnlyPhase(s: Pipe, t: Pipe, p: Pid, ph: Phase) {
    p < |s.procs| && t == s.(procs := s.procs[p := ph])
  }

  /** The process returns, or goes on to wake the first of the queue; the queue loses its head then. */
  ghost predicate WakesFirst(q: seq<Pid>, q': seq<Pid>, ph: Phase) {
    if q == [] then q' == [] && ph == Idle else q == [q[0]] + q' && ph == Waking(q[0])
  }

  /** A read that finds bytes takes the first `k` of them, as many as it asked for or all there are. */
  lemma ReadTakes(s: Pipe, p: Pid, n: Pos)
    requires p < |s.procs| && s.procs[p] == ReadTop(n) && s.contents != []
    ensures var t := Step(s, Go(p));
            var k := |s.contents| - |t.contents|;
            && 0 < k <= n && (k == n || t.contents == [])
            && s.contents == s.contents[..k] + t.contents && t.taken == s.taken + s.contents[..k]
            && WakesFirst(s.wq, t.wq, t.procs[p])
            && t == s.(contents := t.contents, taken := t.taken, wq := t.wq, procs := s.procs[p := t.procs[p]])
  {
  }

  /** One that finds none ends if nobody can write, and otherwise goes on to queue. */
  lemma ReadFindsNone(s: Pipe, p: Pid, n: Pos)
    requires p < |s.procs| && s.procs[p] == ReadTop(n) && s.contents == []
    ensures OnlyPhase(s, Step(s, Go(p)), p, if s.writers == 0 then Idle else ReadAlloc(n))
  {
  }

  lemma ReadQueues(s: Pipe, p: Pid, n: Pos)
    requires p < |s.procs| && s.procs[p] == ReadAlloc(n)
    ensures var t := Step(s, Go(p));
            if s.contents == [] && s.writers > 0 then OnlyPhase(s.(rq := s.rq + [p]), t, p, ReadQueued(n))
            else OnlyPhase(s, t, p, if s.contents == [] then Idle else ReadTop(n))
  {
  }

  /** A write that finds room puts in the first `k` bytes, all it has or as many as fill the buffer. */
  lemma WritePuts(s: Pipe, p: Pid, data: seq<Byte>)
    requires p < |s.procs| && s.procs[p] == WriteTop(data) && data != [] && s.readers > 0 && |s.contents| < PIPE_CAP
    ensures var t := Step(s, Go(p));
            var k := |t.contents| - |s.contents|;
            && 0 < k <= |data| && |t.contents| <= PIPE_CAP && (k == |data| || |t.contents| == PIPE_CAP)
            && t.contents == s.contents + data[..k] && t.written == s.written + data[..k]
            && WakesFirst(s.rq, t.rq, t.procs[p])
            && t == s.(contents := t.contents, written := t.written, rq := t.rq, procs := s.procs[p := t.procs[p]])
  {
  }

  /** One that finds none ends if nobody can read, and otherwise goes on to queue. */
  lemma WriteFindsNone(s: Pipe, p: Pid, data: seq<Byte>)
    requires p < |s.procs| && s.procs[p] == WriteTop(data) && (s.readers == 0 || |s.contents| >= PIPE_CAP)
    ensures OnlyPhase(s, Step(s, Go(p)), p, if s.readers == 0 then Idle else WriteAlloc(data))
  {
  }

  lemma WriteQueues(s: Pipe, p: Pid, data: seq<Byte>)
    requires p < |s.procs| && s.procs[p] == WriteAlloc(data)
    ensures var t := Step(s, Go(p));
            if |s.contents| < PIPE_CAP then OnlyPhase(s, t, p, WriteTop(data))
            else OnlyPhase(s.(wq := s.wq + [p]), t, p, WriteQueued(data))
  {
  }

  /** A wake sends a sleeper back to the top of its loop, with what it asked for. */
  lemma WakeReturns(s: Pipe, p: Pid, t: Pid)
    requires p < |s.procs| && s.procs[p] == Waking(t) && t < |s.procs| && t != p
    ensures var r := Step(s, Go(p));
            && |r.procs| == |s.procs| && r.procs[p] == Idle && r == s.(procs := r.procs)
            && r.procs[t] == (match s.procs[t] case ReadQueued(n) => ReadTop(n) case WriteQueued(data) => WriteTop(data) case ph => ph)
            && forall i | 0 <= i < |s.procs| && i != p && i != t :: r.procs[i] == s.procs[i]
  {
  }

  /** An open adds one to the side it is for; a close takes one away. */
  lemma EndsCounted(s: Pipe, p: Pid, rd: bool, wr: bool)
    requires p < |s.procs| && s.procs[p] == Idle
    ensures var u := Step(s, Open(rd, wr));
            && u == s.(readers := u.readers, writers := u.writers)
            && u.readers - s.readers == (if rd then 1 else 0) && u.writers - s.writers == (if wr then 1 else 0)
    ensures var u := Step(s, StartClose(p, rd, wr));
            && u == s.(readers := u.readers, writers := u.writers, procs := s.procs[p := u.procs[p]])
            && s.readers - u.readers == (if rd && s.readers > 0 then 1 else 0)
            && s.writers - u.writers == (if wr && s.writers > 0 then 1 else 0)
            && u.procs[p] == Closing(u.writers == 0 && s.rq != [], u.readers == 0 && s.wq != [], None)
  {
  }

  /** Is this phase of the call that was in that one? */
  predicate SameCall(was: Phase, ph: Phase) {
    (Reads(was) && Reads(ph) ==> ph.n == was.n) && (Writes(was) && Writes(ph) ==> ph.data == was.data)
  }

  /** As long as a call is under way it is for what it was started for. */
  lemma SameRequest(s: Pipe, e: Event, p: Pid)
    requires Enabled(s, e) && p < |s.procs|
    ensures p < |Step(s, e).procs| && SameCall(s.procs[p], Step(s, e).procs[p])
  {
    if e.Go? {
      if e.p == p { SameOwn(s, p); } else { SameOther(s, e.p, p); }
    }
  }

  lemma SameOwn(s: Pipe, p: Pid)
    requires Enabled(s, Go(p))
    ensures p < |Step(s, Go(p)).procs| && SameCall(s.procs[p], Step(s, Go(p)).procs[p])
  {
  }

  lemma SameOther(s: Pipe, q: Pid, p: Pid)
    requires Enabled(s, Go(q)) && p < |s.procs| && p != q
    ensures p < |Step(s, Go(q)).procs| && SameCall(s.procs[p], Step(s, Go(q)).procs[p])
  {
    match s.procs[q]
    case Waking(t) => assert SameCall(s.procs[p], Unblock(s, t).procs[p]);
    case Closing(_, _, hand) => if hand.Some? { assert SameCall(s.procs[p], Unblock(s, hand.value).procs[p]); }
    case _ =>
  }
}
