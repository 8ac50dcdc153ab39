/** What each operation on descriptors leaves behind: which entries, which files, and which ends of pipes. */
module FdOutcomes {
  import opened FdModel
  import opened FdTheorems
  import opened Options
  import opened PipeNames

  /** No entry but `k` names the file, and the kernel does not keep it. */
  ghost predicate OnlyNamedBy(s: State, f: FileId, k: Slot) {
    f !in s.std && forall j | j in s.slots && s.slots[j] == f :: j == k
  }

  /** File `f` is closed: it is gone, and its pipe has one end less on each side it was for; an unlinked pipe goes with its last end. */
  ghost predicate FileClosed(s: State, u: State, f: FileId)
    requires f in s.files
  {
    var x := s.files[f];
    && u.files == s.files - {f} && u.closed == s.closed + [f]
    && (forall q | q in s.pipes && x.pipe != Some(q) :: q in u.pipes && u.pipes[q] == s.pipes[q])
    && (x.pipe.None? ==> u.pipes == s.pipes)
    && (x.pipe.Some? ==>
          var q := x.pipe.value;
          && q in s.pipes && u.pipes.Keys <= s.pipes.Keys
          && var p := s.pipes[q];
             var (r, w) := (p.readers - (if x.rd then 1 else 0), p.writers - (if x.wr then 1 else 0));
             && r >= 0 && w >= 0
             && (q in u.pipes <==> !(p.unlinked && r == 0 && w == 0))
             && (q in u.pipes ==> u.pipes[q] == Pipe(p.name, p.home, r, w, p.unlinked)))
  }

  /** Of file `f` one reference is gone: the last one closes it. */
  ghost predicate Released(s: State, u: State, f: FileId, last: bool)
    requires f in s.files
  {
    if last then FileClosed(s, u, f)
    else u.pipes == s.pipes && u.closed == s.closed && u.files == s.files[f := s.files[f].(refcount := s.files[f].refcount - 1)]
  }

  lemma LastRef(s: State, k: Slot)
    requires Inv(s) && k in s.slots
    ensures s.slots[k] in s.files
    ensures s.files[s.slots[k]].refcount == 1 <==> OnlyNamedBy(s, s.slots[k], k)
  {
    var f := s.slots[k];
    Named(s, k);
    assert FileOk(s, f, 0) && k in Refs(s, f);
    assert |Refs(s, f) - {k}| == |Refs(s, f)| - 1;
    if OnlyNamedBy(s, f, k) { assert Refs(s, f) - {k} == {}; }
    if s.files[f].refcount == 1 {
      assert Refs(s, f) - {k} == {};
      forall j | j in s.slots && s.slots[j] == f ensures j == k { assert j in Refs(s, f) && j !in Refs(s, f) - {k}; }
    }
  }

  /** The ends a live file has are counted. */
  lemma EndsThere(s: State, f: FileId)
    requires Inv(s) && f in s.files && s.files[f].pipe.Some?
    ensures var (x, q) := (s.files[f], s.files[f].pipe.value);
            q in s.pipes && (x.rd ==> s.pipes[q].readers > 0) && (x.wr ==> s.pipes[q].writers > 0)
  {
    var (x, q) := (s.files[f], s.files[f].pipe.value);
    assert FileOk(s, f, 0) && PipeOk(s, q, 0, 0);
    if x.rd { assert f in Readers(s.files, q); }
    if x.wr { assert f in Writers(s.files, q); }
  }

  lemma ReleaseOutcome(s: State, f: FileId)
    requires Inv(s) && f in s.files
    ensures Released(s, Release(s, f), f, s.files[f].refcount == 1)
  {
    assert FileOk(s, f, 0);
    if s.files[f].pipe.Some? { EndsThere(s, f); }
  }

  /** `close`: the entry is empty, no other is touched, and the file has one reference less. */
  lemma CloseEntries(s: State, t: TableId, fd: int)
    requires Inv(s) && t in s.tables
    ensures var (u, k) := (Next(s, EClose(t, fd)), if fd >= 0 then Slot(t, fd) else Slot(t, FD_MAX));
            if fd < 0 || fd >= FD_MAX || k !in s.slots then u == s
            else
              && u.slots == s.slots - {k} && u.tables == s.tables
              && s.slots[k] in s.files && Released(s, u, s.slots[k], OnlyNamedBy(s, s.slots[k], k))
  {
    if 0 <= fd < FD_MAX && Slot(t, fd) in s.slots {
      var k := Slot(t, fd);
      LastRef(s, k);
      ReleaseOutcome(s, s.slots[k]);
      ReleaseSlots(s, s.slots[k], s.slots - {k});
    }
  }

  /** The end of a process's table: its entries are gone, no others are, and exactly the files that nobody else names are closed. */
  lemma DestroyEntries(s: State, t: TableId)
    requires Inv(s) && t in s.tables
    ensures var u := Next(s, EDestroy(t));
            && u.tables == s.tables - {t}
            && (forall k | k in u.slots :: k.t != t) && (forall k | k in s.slots && k.t != t :: k in u.slots && u.slots[k] == s.slots[k])
            && u.slots.Keys <= s.slots.Keys
            && (forall f: FileId :: f in u.files <==> f in s.files && (f in s.std || exists k :: k in s.slots && k.t != t && s.slots[k] == f))
  {
    var u := Next(s, EDestroy(t));
    DestroyOk(s, t, 0);
    DestroySlots(s, t, 0);
    forall k | k in u.slots ensures k.t != t { assert SlotOk(u, k); }
    forall f: FileId
      ensures f in u.files <==> f in s.files && (f in s.std || exists k :: k in s.slots && k.t != t && s.slots[k] == f)
    {
      assert FileOk(u, f, 0) && FileOk(s, f, 0);
      if f in u.files && f !in s.std {
        assert Refs(u, f) != {};
        var k :| k in Refs(u, f);
        assert k in s.slots && k.t != t && s.slots[k] == f;
      }
      if k :| k in s.slots && k.t != t && s.slots[k] == f { assert k in Refs(u, f); }
    }
  }

  lemma {:induction false} DestroySlots(s: State, t: TableId, i: nat)
    ensures var u := DestroyFrom(s, t, i);
            && u.tables == s.tables - {t} && u.std == s.std && u.files.Keys <= s.files.Keys
            && u.slots.Keys <= s.slots.Keys
            && (forall j | i <= j < FD_MAX :: Slot(t, j) !in u.slots)
            && (forall k | k in s.slots && k.t != t :: k in u.slots) && (forall k | k in u.slots :: u.slots[k] == s.slots[k])
    decreases FD_MAX - i
  {
    if i < FD_MAX {
      if Slot(t, i) in s.slots { ReleaseKeeps(s.(slots := s.slots - {Slot(t, i)}), s.slots[Slot(t, i)]); }
      DestroySlots(CloseFd(s, Slot(t, i)), t, i + 1);
    }
  }

  lemma ReleaseKeeps(s: State, f: FileId)
    ensures var u := Release(s, f);
            u.slots == s.slots && u.tables == s.tables && u.std == s.std && u.files.Keys <= s.files.Keys
  {
  }

  /** `dup2`: the file the new entry named before has one reference less, and the old one's file one more. */
  lemma Dup2Outcome(s: State, t: TableId, a: int, b: int)
    requires Inv(s) && t in s.tables
    ensures var u := Next(s, EDup2(t, a, b));
            if a < 0 || a >= FD_MAX || b < 0 || b >= FD_MAX || a == b || Slot(t, a) !in s.slots then u == s
            else
              var (x, k) := (s.slots[Slot(t, a)], Slot(t, b));
              && u.slots == s.slots[k := x] && u.tables == s.tables && x in u.files
              && (k in s.slots && s.slots[k] != x && OnlyNamedBy(s, s.slots[k], k) ==> s.slots[k] !in u.files && u.closed == s.closed + [s.slots[k]])
              && (!(k in s.slots && s.slots[k] != x && OnlyNamedBy(s, s.slots[k], k)) ==> u.files.Keys == s.files.Keys && u.closed == s.closed)
  {
    if 0 <= a < FD_MAX && 0 <= b < FD_MAX && a != b && Slot(t, a) in s.slots {
      var k := Slot(t, b);
      Dup2Entries(s, t, a, b);
      if k in s.slots {
        LastRef(s, k);
        ReleaseOutcome(s, s.slots[k]);
        ReleaseKeeps(s, s.slots[k]);
        if s.slots[k] == s.slots[Slot(t, a)] { assert !OnlyNamedBy(s, s.slots[k], k); }
      }
    }
  }

  /** A fork leaves every entry of the other tables alone. */
  lemma ForkOutcome(s: State, dst: TableId, src: TableId)
    requires Inv(s) && Enabled(s, EFork(dst, src))
    ensures var u := Next(s, EFork(dst, src));
            && u.tables == s.tables + {dst} && u.pipes == s.pipes && u.closed == s.closed
            && (forall k: Slot | k.t != dst :: (k in u.slots <==> k in s.slots) && (k in s.slots ==> u.slots[k] == s.slots[k]))
            && (forall i: nat | i < FD_MAX ::
                  && (Slot(dst, i) in u.slots <==> Slot(src, i) in s.slots)
                  && (Slot(src, i) in s.slots ==> u.slots[Slot(dst, i)] == s.slots[Slot(src, i)]))
  {
    TableOk(s, dst);
    CloneOk(s.(tables := s.tables + {dst}), dst, src, 0);
  }

  /** `kpipe_unlink`: the pipe the name finds loses its name, and goes at once if no end is open; nothing else changes. */
  lemma UnlinkOutcome(s: State, name: string)
    requires Inv(s)
    ensures var u := Next(s, EUnlink(name));
            if Lookup(s, name).None? then u == s
            else
              var q := Lookup(s, name).value;
              && u.slots == s.slots && u.files == s.files && u.tables == s.tables && q in s.pipes
              && (q in u.pipes <==> s.pipes[q].readers + s.pipes[q].writers > 0)
              && u.pipes.Keys - {q} == s.pipes.Keys - {q}
              && (q in u.pipes ==> u.pipes[q] == s.pipes[q].(unlinked := true))
              && (forall p | p in s.pipes && p != q :: p in u.pipes && u.pipes[p] == s.pipes[p])
  {
    assert BucketOk(s, PipeHash(name));
    if Lookup(s, name).Some? { assert PipeOk(s, Lookup(s, name).value, 0, 0); }
  }

  /** `sys_pipe_open` for neither end does nothing; without memory for a file it leaves no entry, no file and no end behind. */
  lemma OpenFails(s: State, t: TableId, name: string, rd: bool, wr: bool, room: bool)
    requires Inv(s) && t in s.tables
    ensures var u := Next(s, EOpenPipe(t, name, rd, wr, room));
            && (!rd && !wr ==> u == s)
            && (!room ==> u.slots == s.slots && u.files == s.files && u.closed == s.closed
                          && forall q | q in s.pipes :: q in u.pipes && u.pipes[q] == s.pipes[q])
  {
    if rd || wr {
      KOpenOk(s, name, rd, wr);
      assert BucketOk(s, PipeHash(name)) && PipeOk(s, KOpen(s, name, rd, wr).1, 0, 0);
      assert PipeOk(s, s.nextPipe, 0, 0);
    }
  }
}
