/** Every operation on descriptors keeps the reference counts exact; what follows over whole runs. */
module FdTheorems {
  import opened FdModel
  import opened Lists
  import opened Options

  lemma InvLoose(s: State, x: FileId)
    ensures Inv(s) <==> Loose(s, x, 0)
  {
    if Loose(s, x, 0) {
      forall f: FileId ensures FileOk(s, f, 0) { if f == x { assert FileOk(s, x, 0); } }
    }
    if Inv(s) { assert FileOk(s, x, 0); }
  }

  // ------------------------------------------------------------------
  // One reference
  // ------------------------------------------------------------------

  lemma RefOk(s: State, x: FileId, n: nat)
    requires Loose(s, x, n) && x in s.files
    ensures Loose(Ref(s, x), x, n + 1)
  {
    var u := Ref(s, x);
    SameSlots(s, u, x);
    forall q: PipeId ensures PipeOk(u, q, 0, 0) {
      assert PipeOk(s, q, 0, 0);
      assert Readers(u.files, q) == Readers(s.files, q) && Writers(u.files, q) == Writers(s.files, q);
    }
  }

  /** Files other than `x` do not notice a change to it. */
  lemma SameSlots(s: State, u: State, x: FileId)
    requires u == s.(files := u.files) && (forall f | f != x :: (f in u.files <==> f in s.files) && (f in s.files ==> u.files[f] == s.files[f]))
    ensures forall f: FileId | f != x :: FileOk(s, f, 0) ==> FileOk(u, f, 0)
    ensures Refs(u, x) == Refs(s, x) && (Shape(s) ==> Shape(u))
  {
    forall f: FileId | f != x && FileOk(s, f, 0) ensures FileOk(u, f, 0) { assert Refs(u, f) == Refs(s, f); }
    if Shape(s) {
      forall b: nat ensures BucketOk(u, b) { assert BucketOk(s, b); }
      forall k ensures SlotOk(u, k) { assert SlotOk(s, k); }
    }
  }

  /** A reference on its way is put into an empty entry. */
  lemma PlaceOk(s: State, x: FileId, n: nat, k: Slot)
    requires Loose(s, x, n + 1) && k !in s.slots && k.t in s.tables && k.i < FD_MAX
    ensures Loose(s.(slots := s.slots[k := x]), x, n)
  {
    var u := s.(slots := s.slots[k := x]);
    assert Refs(u, x) == Refs(s, x) + {k};
    SlotChange(s, u, x);
    forall j ensures SlotOk(u, j) { assert SlotOk(s, j); }
  }

  /** An entry is emptied; its reference is on its way. */
  lemma UnplaceOk(s: State, x: FileId, n: nat, k: Slot)
    requires Loose(s, x, n) && k in s.slots && s.slots[k] == x
    ensures x in s.files && Loose(s.(slots := s.slots - {k}), x, n + 1)
  {
    var u := s.(slots := s.slots - {k});
    assert k in Refs(s, x);
    assert Refs(u, x) == Refs(s, x) - {k};
    SlotChange(s, u, x);
    forall j ensures SlotOk(u, j) { assert SlotOk(s, j); }
  }

  /** Files other than `x` and the pipes do not notice a change to entries that name `x`. */
  lemma SlotChange(s: State, u: State, x: FileId)
    requires u == s.(slots := u.slots)
    requires forall k :: (k in s.slots && s.slots[k] != x) == (k in u.slots && u.slots[k] != x)
    requires forall k | k in s.slots && s.slots[k] != x :: u.slots[k] == s.slots[k]
    ensures forall f: FileId | f != x :: FileOk(s, f, 0) ==> FileOk(u, f, 0)
    ensures forall q: PipeId :: PipeOk(s, q, 0, 0) ==> PipeOk(u, q, 0, 0)
    ensures Shape(s) ==> forall b: nat :: BucketOk(u, b)
  {
    forall f: FileId | f != x && FileOk(s, f, 0) ensures FileOk(u, f, 0) { assert Refs(u, f) == Refs(s, f); }
    forall q: PipeId | PipeOk(s, q, 0, 0) ensures PipeOk(u, q, 0, 0) {
      assert Readers(u.files, q) == Readers(s.files, q) && Writers(u.files, q) == Writers(s.files, q);
    }
    if Shape(s) { forall b: nat ensures BucketOk(u, b) { assert BucketOk(s, b); } }
  }

  // ------------------------------------------------------------------
  // The last reference
  // ------------------------------------------------------------------

  /** Exact but for `r` readers and `w` writers of pipe `x` that are counted and have no file. */
  ghost predicate PipeLoose(s: State, x: PipeId, r: int, w: int) {
    && Shape(s) && x in s.pipes
    && (forall f: FileId {:trigger FileOk(s, f, 0)} :: FileOk(s, f, 0))
    && (forall q: PipeId {:trigger PipeOk(s, q, 0, 0)} | q != x :: PipeOk(s, q, 0, 0)) && PipeOk(s, x, r, w)
  }

  function One(b: bool): int { if b then 1 else 0 }

  lemma NoEnds(s: State, q: PipeId)
    requires |Readers(s.files, q)| == 0 && |Writers(s.files, q)| == 0
    requires forall f: FileId {:trigger FileOk(s, f, 0)} :: FileOk(s, f, 0)
    ensures forall f | f in s.files :: s.files[f].pipe != Some(q)
  {
    forall f | f in s.files ensures s.files[f].pipe != Some(q) {
      assert FileOk(s, f, 0);
      assert f !in Readers(s.files, q) && f !in Writers(s.files, q);
    }
  }

  /** Closing an end takes its count away, and frees the pipe when it was the last of an unlinked one. */
  lemma KCloseOk(s: State, q: PipeId, rd: bool, wr: bool)
    requires PipeLoose(s, q, One(rd), One(wr)) && (rd || wr)
    ensures Inv(KClose(s, q, rd, wr))
  {
    var u := KClose(s, q, rd, wr);
    if q !in u.pipes { NoEnds(s, q); }
    forall f: FileId ensures FileOk(u, f, 0) {
      assert FileOk(s, f, 0);
      assert Refs(u, f) == Refs(s, f);
    }
    forall p: PipeId ensures PipeOk(u, p, 0, 0) {
      if p != q { assert PipeOk(s, p, 0, 0); }
      assert Readers(u.files, p) == Readers(s.files, p) && Writers(u.files, p) == Writers(s.files, p);
    }
    forall b: nat ensures BucketOk(u, b) { assert BucketOk(s, b); }
    forall k ensures SlotOk(u, k) { assert SlotOk(s, k); }
  }

  lemma ReleaseOk(s: State, x: FileId, n: nat)
    requires Loose(s, x, n + 1) && x in s.files
    ensures Loose(Release(s, x), x, n)
  {
    var f := s.files[x].(refcount := s.files[x].refcount - 1);
    if f.refcount > 0 {
      var u := Release(s, x);
      SameSlots(s, u, x);
      forall q: PipeId ensures PipeOk(u, q, 0, 0) {
        assert PipeOk(s, q, 0, 0);
        assert Readers(u.files, q) == Readers(s.files, q) && Writers(u.files, q) == Writers(s.files, q);
      }
    } else {
      var t := s.(files := s.files - {x}, closed := s.closed + [x]);
      LastOk(s, x);
      if f.pipe.Some? { KCloseOk(t, f.pipe.value, f.rd, f.wr); }
      InvLoose(Release(s, x), x);
    }
  }

  /** Without the file that was just closed, its pipe has one end too many. */
  lemma LastOk(s: State, x: FileId)
    requires Loose(s, x, 1) && x in s.files && s.files[x].refcount == 1
    ensures var t := s.(files := s.files - {x}, closed := s.closed + [x]);
            var f := s.files[x];
            if f.pipe.Some? then PipeLoose(t, f.pipe.value, One(f.rd), One(f.wr)) && (f.rd || f.wr) else Inv(t)
  {
    var t := s.(files := s.files - {x}, closed := s.closed + [x]);
    var f := s.files[x];
    assert Refs(s, x) == {};
    forall g: FileId ensures FileOk(t, g, 0) {
      if g != x { assert FileOk(s, g, 0); }
      assert Refs(t, g) == Refs(s, g);
    }
    forall b: nat ensures BucketOk(t, b) { assert BucketOk(s, b); }
    forall k ensures SlotOk(t, k) { assert SlotOk(s, k); }
    forall q: PipeId ensures if f.pipe == Some(q) then PipeOk(t, q, One(f.rd), One(f.wr)) else PipeOk(t, q, 0, 0) {
      assert PipeOk(s, q, 0, 0);
      EndsWithout(s.files, x, q);
    }
  }

  lemma EndsWithout(files: map<FileId, File>, x: FileId, q: PipeId)
    requires x in files
    ensures |Readers(files - {x}, q)| == |Readers(files, q)| - (if files[x].pipe == Some(q) then One(files[x].rd) else 0)
    ensures |Writers(files - {x}, q)| == |Writers(files, q)| - (if files[x].pipe == Some(q) then One(files[x].wr) else 0)
  {
    assert Readers(files - {x}, q) == Readers(files, q) - {x};
    assert Writers(files - {x}, q) == Writers(files, q) - {x};
  }

  // ------------------------------------------------------------------
  // The operations
  // ------------------------------------------------------------------

  lemma CloseFdOk(s: State, k: Slot)
    requires Inv(s)
    ensures Inv(CloseFd(s, k))
  {
    if k in s.slots {
      var x := s.slots[k];
      InvLoose(s, x);
      UnplaceOk(s, x, 0, k);
      ReleaseOk(s.(slots := s.slots - {k}), x, 0);
      InvLoose(CloseFd(s, k), x);
    }
  }

  /** A release does not look at the tables. */
  lemma ReleaseSlots(s: State, x: FileId, z: map<Slot, FileId>)
    ensures Release(s.(slots := z), x) == Release(s, x).(slots := z)
    ensures Release(s, x).slots == s.slots && Release(s, x).tables == s.tables
  {
  }

  /** `dup2` acts as closing the new entry and then adding a reference to the old one's file. */
  lemma Dup2Ok(s: State, t: TableId, a: int, b: int)
    requires Inv(s)
    ensures Inv(Dup2(s, t, a, b))
  {
    if 0 <= a < FD_MAX && 0 <= b < FD_MAX && Slot(t, a) in s.slots && a != b {
      var (src, k) := (s.slots[Slot(t, a)], Slot(t, b));
      var u := CloseFd(s, k);
      CloseFdOk(s, k);
      if k in s.slots { ReleaseSlots(s, s.slots[k], s.slots - {k}); }
      assert SlotOk(s, Slot(t, a)) && FileOk(u, src, 0);
      assert Slot(t, a) in Refs(u, src);
      InvLoose(u, src);
      RefOk(u, src, 0);
      var v := Ref(u, src);
      PlaceOk(v, src, 0, k);
      var w := v.(slots := v.slots[k := src]);
      InvLoose(w, src);
      assert s.slots[k := src] == (s.slots - {k})[k := src];
      assert Dup2(s, t, a, b) == w;
    }
  }

  lemma {:induction false} CloneOk(s: State, dst: TableId, src: TableId, i: nat)
    requires Inv(s) && dst in s.tables && dst != src && forall j | i <= j < FD_MAX :: Slot(dst, j) !in s.slots
    ensures Inv(CloneFrom(s, dst, src, i))
    ensures var u := CloneFrom(s, dst, src, i);
            && u.pipes == s.pipes && u.tables == s.tables && u.closed == s.closed
            && (forall k: Slot | k.t != dst || k.i < i :: (k in u.slots <==> k in s.slots) && (k in s.slots ==> u.slots[k] == s.slots[k]))
            && forall j | i <= j < FD_MAX ::
                 (Slot(dst, j) in u.slots <==> Slot(src, j) in s.slots)
                 && (Slot(src, j) in s.slots ==> u.slots[Slot(dst, j)] == s.slots[Slot(src, j)])
    decreases FD_MAX - i
  {
    if i < FD_MAX {
      if Slot(src, i) in s.slots {
        var f := s.slots[Slot(src, i)];
        assert Slot(src, i) in Refs(s, f) && FileOk(s, f, 0);
        InvLoose(s, f);
        RefOk(s, f, 0);
        var u := Ref(s, f);
        PlaceOk(u, f, 0, Slot(dst, i));
        var v := u.(slots := u.slots[Slot(dst, i) := f]);
        InvLoose(v, f);
        CloneOk(v, dst, src, i + 1);
      } else {
        CloneOk(s, dst, src, i + 1);
      }
    }
  }

  lemma {:induction false} DestroyOk(s: State, t: TableId, i: nat)
    requires Inv(s) && forall j | 0 <= j < i :: Slot(t, j) !in s.slots
    ensures Inv(DestroyFrom(s, t, i))
    decreases FD_MAX - i
  {
    if i < FD_MAX {
      CloseFdOk(s, Slot(t, i));
      if Slot(t, i) in s.slots { ReleaseSlots(s.(slots := s.slots - {Slot(t, i)}), s.slots[Slot(t, i)], map[]); }
      DestroyOk(CloseFd(s, Slot(t, i)), t, i + 1);
    } else {
      var u := DestroyFrom(s, t, i);
      forall f: FileId ensures FileOk(u, f, 0) {
        assert FileOk(s, f, 0);
        assert Refs(u, f) == Refs(s, f);
      }
      forall q: PipeId ensures PipeOk(u, q, 0, 0) {
        assert PipeOk(s, q, 0, 0);
        assert Readers(u.files, q) == Readers(s.files, q) && Writers(u.files, q) == Writers(s.files, q);
      }
      forall b: nat ensures BucketOk(u, b) { assert BucketOk(s, b); }
      forall k ensures SlotOk(u, k) { assert SlotOk(s, k); }
    }
  }

  lemma KOpenOk(s: State, name: string, rd: bool, wr: bool)
    requires Inv(s)
    ensures PipeLoose(KOpen(s, name, rd, wr).0, KOpen(s, name, rd, wr).1, One(rd), One(wr))
  {
    var (u, q) := KOpen(s, name, rd, wr);
    var b := PipeHash(name);
    assert BucketOk(s, b) && PipeOk(s, q, 0, 0);
    forall f: FileId ensures FileOk(u, f, 0) {
      assert FileOk(s, f, 0);
      assert Refs(u, f) == Refs(s, f);
    }
    forall p: PipeId ensures if p == q then PipeOk(u, p, One(rd), One(wr)) else PipeOk(u, p, 0, 0) { KOpenPipes(s, name, rd, wr, p); }
    forall c: nat ensures BucketOk(u, c) { assert BucketOk(s, c); }
    forall k ensures SlotOk(u, k) { assert SlotOk(s, k); }
  }

  lemma KOpenPipes(s: State, name: string, rd: bool, wr: bool, p: PipeId)
    requires Inv(s)
    ensures var (u, q) := KOpen(s, name, rd, wr);
            if p == q then PipeOk(u, p, One(rd), One(wr)) else PipeOk(u, p, 0, 0)
  {
    assert BucketOk(s, PipeHash(name)) && PipeOk(s, p, 0, 0) && PipeOk(s, s.nextPipe, 0, 0);
    if p == s.nextPipe {
      assert Readers(s.files, p) == {} && Writers(s.files, p) == {};
    }
  }

  /** The file that `sys_pipe_open` creates accounts for the ends it opened, and its one reference is on its way. */
  lemma CreateOk(s: State, q: PipeId, rd: bool, wr: bool)
    requires PipeLoose(s, q, One(rd), One(wr)) && (rd || wr)
    ensures Loose(Create(s, q, rd, wr), s.nextFile, 1)
  {
    var (x, u) := (s.nextFile, Create(s, q, rd, wr));
    assert FileOk(s, x, 0);
    forall f: FileId ensures if f == x then FileOk(u, f, 1) else FileOk(u, f, 0) {
      assert FileOk(s, f, 0);
      assert Refs(u, f) == Refs(s, f);
    }
    forall p: PipeId ensures PipeOk(u, p, 0, 0) {
      if p != q { assert PipeOk(s, p, 0, 0); }
      ReadersWith(s.files, x, u.files[x], p);
      WritersWith(s.files, x, u.files[x], p);
    }
    forall b: nat ensures BucketOk(u, b) { assert BucketOk(s, b); }
    forall k ensures SlotOk(u, k) { assert SlotOk(s, k); }
  }

  lemma ReadersWith(files: map<FileId, File>, x: FileId, f: File, q: PipeId)
    requires x !in files
    ensures |Readers(files[x := f], q)| == |Readers(files, q)| + (if f.pipe == Some(q) then One(f.rd) else 0)
  {
    if f.pipe == Some(q) && f.rd {
      assert Readers(files[x := f], q) == Readers(files, q) + {x};
    } else {
      assert Readers(files[x := f], q) == Readers(files, q);
    }
  }

  lemma WritersWith(files: map<FileId, File>, x: FileId, f: File, q: PipeId)
    requires x !in files
    ensures |Writers(files[x := f], q)| == |Writers(files, q)| + (if f.pipe == Some(q) then One(f.wr) else 0)
  {
    if f.pipe == Some(q) && f.wr {
      assert Writers(files[x := f], q) == Writers(files, q) + {x};
    } else {
      assert Writers(files[x := f], q) == Writers(files, q);
    }
  }

  lemma OpenPipeOk(s: State, t: TableId, name: string, rd: bool, wr: bool, room: bool)
    requires Inv(s) && t in s.tables
    ensures Inv(OpenPipe(s, t, name, rd, wr, room))
  {
    if rd || wr {
      var (u, q) := KOpen(s, name, rd, wr);
      KOpenOk(s, name, rd, wr);
      if room {
        CreateOk(u, q, rd, wr);
        InstallOk(Create(u, q, rd, wr), t, u.nextFile);
      } else {
        KCloseOk(u, q, rd, wr);
      }
    }
  }

  /** `fd_table_allocate`, or the release of the file when the table is full. */
  lemma InstallOk(v: State, t: TableId, f: FileId)
    requires Loose(v, f, 1) && f in v.files && t in v.tables
    ensures Inv(Install(v, t, f))
  {
    var i := EmptyFrom(v.slots, t, 0);
    if i == FD_MAX {
      ReleaseOk(v, f, 0);
      InvLoose(Release(v, f), f);
    } else {
      PlaceOk(v, f, 0, Slot(t, i));
      InvLoose(v.(slots := v.slots[Slot(t, i) := f]), f);
    }
  }

  lemma KUnlinkOk(s: State, name: string)
    requires Inv(s)
    ensures Inv(KUnlink(s, name))
  {
    var b := PipeHash(name);
    var i := Find(s.buckets[b], s.pipes, name);
    if i < |s.buckets[b]| {
      var u := KUnlink(s, name);
      var q := s.buckets[b][i];
      assert BucketOk(s, b) && PipeOk(s, q, 0, 0);
      if q !in u.pipes { NoEnds(s, q); }
      forall f: FileId ensures FileOk(u, f, 0) {
        assert FileOk(s, f, 0);
        assert Refs(u, f) == Refs(s, f);
      }
      CutMembers(s.buckets[b], i);
      forall p: PipeId ensures PipeOk(u, p, 0, 0) {
        assert PipeOk(s, p, 0, 0);
        assert Readers(u.files, p) == Readers(s.files, p) && Writers(u.files, p) == Writers(s.files, p);
      }
      forall c: nat ensures BucketOk(u, c) { assert BucketOk(s, c); }
      forall k ensures SlotOk(u, k) { assert SlotOk(s, k); }
    }
  }

  lemma InvNext(s: State, e: Event)
    requires Inv(s) && Enabled(s, e)
    ensures Inv(Next(s, e))
  {
    match e
    case EOpenPipe(t, name, rd, wr, room) => OpenPipeOk(s, t, name, rd, wr, room);
    case EUnlink(name) => KUnlinkOk(s, name);
    case EClose(t, fd) => if 0 <= fd < FD_MAX { CloseFdOk(s, Slot(t, fd)); }
    case EDup2(t, a, b) => Dup2Ok(s, t, a, b);
    case EFork(dst, src) =>
      TableOk(s, dst);
      CloneOk(s.(tables := s.tables + {dst}), dst, src, 0);
    case EDestroy(t) => DestroyOk(s, t, 0);
  }

  /** A new table is empty. */
  lemma TableOk(s: State, t: TableId)
    requires Inv(s) && t !in s.tables
    ensures Inv(s.(tables := s.tables + {t})) && forall j: nat :: Slot(t, j) !in s.slots
  {
    var u := s.(tables := s.tables + {t});
    forall f: FileId ensures FileOk(u, f, 0) {
      assert FileOk(s, f, 0);
      assert Refs(u, f) == Refs(s, f);
    }
    forall q: PipeId ensures PipeOk(u, q, 0, 0) {
      assert PipeOk(s, q, 0, 0);
      assert Readers(u.files, q) == Readers(s.files, q) && Writers(u.files, q) == Writers(s.files, q);
    }
    forall b: nat ensures BucketOk(u, b) { assert BucketOk(s, b); }
    forall k ensures SlotOk(u, k) { assert SlotOk(s, k); }
    forall j: nat ensures Slot(t, j) !in s.slots { assert SlotOk(s, Slot(t, j)); }
  }

  // ------------------------------------------------------------------
  // Runs
  // ------------------------------------------------------------------

  ghost predicate CanRun(s: State, es: seq<Event>)
    requires |s.buckets| == PIPE_HASH_BUCKETS
    decreases |es|
  {
    es == [] || (Enabled(s, es[0]) && |Next(s, es[0]).buckets| == PIPE_HASH_BUCKETS && CanRun(Next(s, es[0]), es[1..]))
  }

  ghost function Run(s: State, es: seq<Event>): State
    requires |s.buckets| == PIPE_HASH_BUCKETS && CanRun(s, es)
    decreases |es|
  {
    if es == [] then s else Run(Next(s, es[0]), es[1..])
  }

  /** `fd_init_std`: three standard files, and the table of the first process. */
  function Initial(): State {
    State(map[0 := File(None, true, false, 2), 1 := File(None, false, true, 2), 2 := File(None, false, true, 2)],
          {0}, map[Slot(0, 0) := 0, Slot(0, 1) := 1, Slot(0, 2) := 2], {0, 1, 2},
          map[], seq(PIPE_HASH_BUCKETS, i => []), 3, 0, [])
  }

  lemma InitialOk()
    ensures Inv(Initial())
  {
    var s := Initial();
    forall f: FileId ensures FileOk(s, f, 0) {
      assert Refs(s, f) == if f < 3 then {Slot(0, f)} else {};
    }
    forall q: PipeId ensures PipeOk(s, q, 0, 0) {}
    forall b: nat ensures BucketOk(s, b) {}
    forall k ensures SlotOk(s, k) {}
  }

  lemma {:induction false} InvRun(s: State, es: seq<Event>)
    requires Inv(s) && CanRun(s, es)
    ensures Inv(Run(s, es))
    decreases |es|
  {
    if es != [] {
      InvNext(s, es[0]);
      InvRun(Next(s, es[0]), es[1..]);
    }
  }

  /**
   * After every run from start-up: a file's count is the number of table
   * entries that name it, one more for a standard file; its close has run
   * exactly once if it is gone and never if it is not; the counts of a pipe are
   * its live files for reading and for writing; no file names a pipe that is
   * gone; and an unlinked pipe that is still there has a live file.
   */
  lemma CountsExact(es: seq<Event>)
    requires CanRun(Initial(), es)
    ensures var s := Run(Initial(), es);
            && (forall f | f in s.files :: s.files[f].refcount == |Refs(s, f)| + Std(s, f))
            && NoDup(s.closed) && (forall f: FileId :: f in s.closed <==> f < s.nextFile && f !in s.files)
            && (forall q | q in s.pipes :: s.pipes[q].readers == |Readers(s.files, q)| && s.pipes[q].writers == |Writers(s.files, q)|)
            && (forall f | f in s.files && s.files[f].pipe.Some? :: s.files[f].pipe.value in s.pipes)
            && (forall q | q in s.pipes && s.pipes[q].unlinked :: Readers(s.files, q) + Writers(s.files, q) != {})
  {
    InitialOk();
    InvRun(Initial(), es);
    var s := Run(Initial(), es);
    forall f: FileId ensures f in s.closed <==> f < s.nextFile && f !in s.files { assert FileOk(s, f, 0); }
    forall f | f in s.files ensures s.files[f].refcount == |Refs(s, f)| + Std(s, f) { assert FileOk(s, f, 0); }
    forall f | f in s.files && s.files[f].pipe.Some? ensures s.files[f].pipe.value in s.pipes { assert FileOk(s, f, 0); }
    forall q | q in s.pipes
      ensures s.pipes[q].readers == |Readers(s.files, q)| && s.pipes[q].writers == |Writers(s.files, q)|
      ensures s.pipes[q].unlinked ==> Readers(s.files, q) + Writers(s.files, q) != {}
    {
      assert PipeOk(s, q, 0, 0);
      if s.pipes[q].unlinked { assert Readers(s.files, q) != {} || Writers(s.files, q) != {}; }
    }
  }

  /** No pipe is added or renamed, and a pipe that still has its name stays. */
  ghost predicate PipesOnly(s: State, u: State) {
    && u.nextPipe == s.nextPipe && u.buckets == s.buckets
    && (forall q | q in u.pipes :: q in s.pipes && u.pipes[q].name == s.pipes[q].name && u.pipes[q].home == s.pipes[q].home)
    && (forall q | q in s.pipes && !s.pipes[q].unlinked :: q in u.pipes && !u.pipes[q].unlinked)
  }

  lemma {:induction false} DestroyPipes(s: State, t: TableId, i: nat)
    ensures PipesOnly(s, DestroyFrom(s, t, i))
    decreases FD_MAX - i
  {
    if i < FD_MAX {
      if Slot(t, i) in s.slots { ReleasePipes(s.(slots := s.slots - {Slot(t, i)}), s.slots[Slot(t, i)]); }
      DestroyPipes(CloseFd(s, Slot(t, i)), t, i + 1);
    }
  }

  lemma ReleasePipes(s: State, f: FileId)
    ensures PipesOnly(s, Release(s, f))
  {
  }

  lemma InstallPipes(s: State, t: TableId, f: FileId)
    ensures PipesOnly(s, Install(s, t, f))
  {
    ReleasePipes(s, f);
  }

  lemma KClosePipes(s: State, q: PipeId, rd: bool, wr: bool)
    ensures PipesOnly(s, KClose(s, q, rd, wr))
  {
  }

  /** What `sys_pipe_open` does to the pipes is what `kpipe_open` does. */
  lemma OpenPipes(s: State, t: TableId, name: string, rd: bool, wr: bool, room: bool)
    requires Inv(s) && (rd || wr)
    ensures PipesOnly(KOpen(s, name, rd, wr).0, OpenPipe(s, t, name, rd, wr, room))
  {
    var (u, q) := KOpen(s, name, rd, wr);
    if room { InstallPipes(Create(u, q, rd, wr), t, u.nextFile); } else { KClosePipes(u, q, rd, wr); }
  }

  lemma NextPipes(s: State, e: Event)
    requires Inv(s) && Enabled(s, e) && !e.EUnlink? && !e.EOpenPipe?
    ensures PipesOnly(s, Next(s, e))
  {
    match e
    case EDestroy(t) => DestroyPipes(s, t, 0);
    case EFork(dst, src) => ClonePipes(s.(tables := s.tables + {dst}), dst, src, 0);
    case EClose(t, fd) =>
      if 0 <= fd < FD_MAX && Slot(t, fd) in s.slots { ReleasePipes(s.(slots := s.slots - {Slot(t, fd)}), s.slots[Slot(t, fd)]); }
    case EDup2(t, a, b) =>
      if 0 <= b < FD_MAX && Slot(t, b) in s.slots { ReleasePipes(s, s.slots[Slot(t, b)]); }
  }

  lemma {:induction false} ClonePipes(s: State, dst: TableId, src: TableId, i: nat)
    ensures PipesOnly(s, CloneFrom(s, dst, src, i))
    decreases FD_MAX - i
  {
    if i < FD_MAX {
      if Slot(src, i) in s.slots {
        var u := Ref(s, s.slots[Slot(src, i)]);
        ClonePipes(u.(slots := u.slots[Slot(dst, i) := s.slots[Slot(src, i)]]), dst, src, i + 1);
      } else {
        ClonePipes(s, dst, src, i + 1);
      }
    }
  }

  /** A pipe keeps its name and its bucket, and one that is gone stays gone. */
  lemma PipeStep(s: State, e: Event, q: PipeId)
    requires Inv(s) && Enabled(s, e) && q < s.nextPipe
    ensures var u := Next(s, e);
            && q < u.nextPipe
            && (q in u.pipes ==> q in s.pipes && u.pipes[q].name == s.pipes[q].name && u.pipes[q].home == s.pipes[q].home)
  {
    match e
    case EUnlink(name) =>
    case EOpenPipe(t, name, rd, wr, room) =>
      if rd || wr {
        OpenPipes(s, t, name, rd, wr, room);
        KOpenKeeps(s, name, rd, wr, q);
      }
    case _ => NextPipes(s, e);
  }

  lemma KOpenKeeps(s: State, name: string, rd: bool, wr: bool, q: PipeId)
    requires Inv(s) && q < s.nextPipe
    ensures var u := KOpen(s, name, rd, wr).0;
            && q < u.nextPipe
            && (q in u.pipes <==> q in s.pipes)
            && (q in s.pipes ==> u.pipes[q].name == s.pipes[q].name && u.pipes[q].home == s.pipes[q].home)
  {
    assert BucketOk(s, PipeHash(name));
  }

  /** Only an unlink can make a named pipe go; a pipe that is gone has been freed once and stays gone. */
  lemma {:induction false} PipeFreedOnce(s: State, es: seq<Event>, q: PipeId)
    requires Inv(s) && CanRun(s, es) && q < s.nextPipe && q !in s.pipes
    ensures q !in Run(s, es).pipes
    decreases |es|
  {
    if es != [] {
      InvNext(s, es[0]);
      PipeStep(s, es[0], q);
      PipeFreedOnce(Next(s, es[0]), es[1..], q);
    }
  }

  /** `dup2` makes the new entry name the old one's file, which stays open, and touches no other entry. */
  lemma Dup2Entries(s: State, t: TableId, a: int, b: int)
    requires Inv(s) && 0 <= a < FD_MAX && 0 <= b < FD_MAX && a != b && Slot(t, a) in s.slots
    ensures var u := Dup2(s, t, a, b);
            u.slots == s.slots[Slot(t, b) := s.slots[Slot(t, a)]] && s.slots[Slot(t, a)] in u.files
  {
    SourceStays(s, Slot(t, a), Slot(t, b));
    if Slot(t, b) in s.slots { ReleaseSlots(s, s.slots[Slot(t, b)], s.slots); }
  }

  /** `sys_pipe_open` puts a new file for the pipe of that name in the lowest empty entry; with no entry left the file is closed again. */
  lemma OpenedEntry(s: State, t: TableId, name: string, rd: bool, wr: bool)
    requires Inv(s) && (rd || wr)
    ensures var u := OpenPipe(s, t, name, rd, wr, true);
            var i := EmptyFrom(s.slots, t, 0);
            if i == FD_MAX then u.slots == s.slots && u.closed == s.closed + [s.nextFile] && s.nextFile !in u.files
            else
              && u.slots == s.slots[Slot(t, i) := s.nextFile] && u.closed == s.closed && s.nextFile in u.files
              && u.files[s.nextFile].rd == rd && u.files[s.nextFile].wr == wr && u.files[s.nextFile].pipe.Some?
              && var q := u.files[s.nextFile].pipe.value; q in u.pipes && u.pipes[q].name == Stored(name)
  {
    var (v, q) := KOpen(s, name, rd, wr);
    OpenedName(s, name, rd, wr);
    var w := Create(v, q, rd, wr);
    if EmptyFrom(s.slots, t, 0) == FD_MAX { ReleaseSlots(w, s.nextFile, w.slots); }
  }

  lemma OpenedName(s: State, name: string, rd: bool, wr: bool)
    requires Inv(s)
    ensures var (v, q) := KOpen(s, name, rd, wr); q in v.pipes && v.pipes[q].name == Stored(name)
  {
    assert BucketOk(s, PipeHash(name));
    if |name| >= PIPE_NAME_MAX {
      forall p | p in s.pipes ensures s.pipes[p].name != name { assert PipeOk(s, p, 0, 0); }
    }
  }

  /** A forked process starts with its parent's descriptors. */
  lemma ForkCopies(s: State, dst: TableId, src: TableId, i: nat)
    requires Inv(s) && Enabled(s, EFork(dst, src)) && i < FD_MAX
    ensures var u := Next(s, EFork(dst, src));
            && (Slot(dst, i) in u.slots <==> Slot(src, i) in s.slots)
            && (Slot(src, i) in s.slots ==> u.slots[Slot(dst, i)] == s.slots[Slot(src, i)])
            && (Slot(src, i) in u.slots <==> Slot(src, i) in s.slots)
  {
    TableOk(s, dst);
    CloneOk(s.(tables := s.tables + {dst}), dst, src, 0);
  }

  // ------------------------------------------------------------------
  // What the loops over a table rely on
  // ------------------------------------------------------------------

  /** Every entry names a live file. */
  lemma Named(s: State, k: Slot)
    requires Inv(s)
    ensures k in s.slots ==> s.slots[k] in s.files
  {
    if k in s.slots {
      assert FileOk(s, s.slots[k], 0);
      assert k in Refs(s, s.slots[k]);
    }
  }

  lemma AddRef(s: State, f: FileId, k: Slot)
    requires Inv(s) && f in s.files && k !in s.slots && k.t in s.tables && k.i < FD_MAX
    ensures Inv(Ref(s, f).(slots := s.slots[k := f]))
  {
    InvLoose(s, f);
    RefOk(s, f, 0);
    PlaceOk(Ref(s, f), f, 0, k);
    InvLoose(Ref(s, f).(slots := s.slots[k := f]), f);
  }

  /** Releasing the file of one entry does not free the file of another, even if they are the same. */
  lemma SourceStays(s: State, a: Slot, b: Slot)
    requires Inv(s) && a in s.slots && a != b
    ensures s.slots[a] in s.files && (b in s.slots ==> s.slots[a] in Release(s, s.slots[b]).files)
  {
    Named(s, a);
    if b in s.slots && s.slots[a] == s.slots[b] {
      var f := s.slots[a];
      assert FileOk(s, f, 0) && {a, b} <= Refs(s, f);
      assert Refs(s, f) == {a, b} + (Refs(s, f) - {a, b});
      assert |{a, b}| == 2;
    }
  }
}
