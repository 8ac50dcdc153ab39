/**
 * Descriptor tables in place: an array of 64 entries per process over shared,
 * reference-counted files.  Each method is tied to a transition of `FdModel`.
 */
module Descriptors {
  import opened FdModel
  import opened FdTheorems
  import opened Options

  ghost function Entry(slots: map<Slot, FileId>, k: Slot): Option<FileId> {
    if k in slots then Some(slots[k]) else None
  }

  class Descriptors {
    var files: map<FileId, File>
    var tables: map<TableId, array<Option<FileId>>>
    var pipes: map<PipeId, Pipe>
    var buckets: seq<seq<PipeId>>
    const std: set<FileId>
    var nextFile: FileId
    var nextPipe: PipeId
    ghost var slots: map<Slot, FileId>
    ghost var closed: seq<FileId>
    ghost var repr: set<array<Option<FileId>>>    // the tables' arrays

    ghost function View(): State
      reads this
    {
      State(files, tables.Keys, slots, std, pipes, buckets, nextFile, nextPipe, closed)
    }

    ghost predicate TableIs(t: TableId)
      reads this`tables, this`slots, this`repr, repr
    {
      t in tables ==>
        && tables[t] in repr && tables[t].Length == FD_MAX
        && forall i | 0 <= i < FD_MAX :: tables[t][i] == Entry(slots, Slot(t, i))
    }

    ghost predicate Valid()
      reads this`tables, this`slots, this`repr, repr
    {
      && (forall t, u | t in tables && u in tables && t != u :: tables[t] != tables[u])
      && (forall t: TableId {:trigger TableIs(t)} :: TableIs(t))
    }

    method SetEntry(t: TableId, i: nat, f: Option<FileId>)
      requires Valid() && t in tables && i < FD_MAX
      modifies this`slots, tables[t]
      ensures Valid() && slots == if f.Some? then old(slots)[Slot(t, i) := f.value] else old(slots) - {Slot(t, i)}
    {
      assert TableIs(t);
      tables[t][i] := f;
      slots := if f.Some? then slots[Slot(t, i) := f.value] else slots - {Slot(t, i)};
      forall u: TableId ensures TableIs(u) { assert old(TableIs(u)); }
    }

    method GetEntry(t: TableId, i: nat) returns (f: Option<FileId>)
      requires Valid() && t in tables && i < FD_MAX
      ensures f == Entry(slots, Slot(t, i))
    {
      assert TableIs(t);
      f := tables[t][i];
    }

    // ---- references ----

    /** `file_ref` */
    method FileRef(f: FileId)
      requires f in files
      modifies this`files
      ensures View() == Ref(old(View()), f)
    {
      files := files[f := files[f].(refcount := files[f].refcount + 1)];
    }

    /** `kpipe_close`, its counts. */
    method PipeClose(q: PipeId, rd: bool, wr: bool)
      modifies this`pipes
      ensures View() == KClose(old(View()), q, rd, wr)
    {
      if q !in pipes {
        return;
      }
      var p := pipes[q];
      if rd && p.readers > 0 {
        p := p.(readers := p.readers - 1);
      }
      if wr && p.writers > 0 {
        p := p.(writers := p.writers - 1);
      }
      if p.unlinked && p.readers == 0 && p.writers == 0 {
        pipes := pipes - {q};
      } else {
        pipes := pipes[q := p];
      }
    }

    /** `file_release` */
    method FileRelease(f: FileId)
      requires f in files
      modifies this`files, this`pipes, this`closed
      ensures View() == Release(old(View()), f)
    {
      var x := files[f].(refcount := files[f].refcount - 1);
      files := files[f := x];
      if x.refcount > 0 {
        return;
      }
      closed := closed + [f];
      if x.pipe.Some? {
        PipeClose(x.pipe.value, x.rd, x.wr);
      }
      files := files - {f};
      assert files == old(files) - {f};
    }

    // ---- tables ----

    /** `fd_table_close` */
    method TableClose(t: TableId, fd: int) returns (code: int)
      requires Valid() && Inv(View()) && t in tables
      modifies this`files, this`pipes, this`closed, this`slots, tables[t]
      ensures Valid() && View() == Next(old(View()), EClose(t, fd))
      ensures code == 0 <==> 0 <= fd < FD_MAX && Slot(t, fd) in old(slots)
    {
      if fd < 0 || fd >= FD_MAX {
        return -1;
      }
      var file := GetEntry(t, fd);
      if file.None? {
        return -1;
      }
      Named(View(), Slot(t, fd));
      SetEntry(t, fd, None);
      FileRelease(file.value);
      code := 0;
    }

    /** `fd_table_dup2` */
    method TableDup2(t: TableId, oldfd: int, newfd: int) returns (code: int)
      requires Valid() && Inv(View()) && t in tables
      modifies this`files, this`pipes, this`closed, this`slots, tables[t]
      ensures Valid() && View() == Dup2(old(View()), t, oldfd, newfd)
      ensures code == if 0 <= oldfd < FD_MAX && 0 <= newfd < FD_MAX && Slot(t, oldfd) in old(slots) then newfd else -1
    {
      if oldfd < 0 || oldfd >= FD_MAX || newfd < 0 || newfd >= FD_MAX {
        return -1;
      }
      var src := GetEntry(t, oldfd);
      if src.None? {
        return -1;
      }
      if oldfd == newfd {
        return newfd;
      }
      SourceStays(View(), Slot(t, oldfd), Slot(t, newfd));
      var was := GetEntry(t, newfd);
      if was.Some? {
        Named(View(), Slot(t, newfd));
        FileRelease(was.value);
      }
      FileRef(src.value);
      SetEntry(t, newfd, src);
      code := newfd;
    }

    /** `fd_table_allocate` */
    method TableAllocate(t: TableId, file: FileId) returns (fd: int)
      requires Valid() && t in tables
      modifies this`slots, tables[t]
      ensures Valid()
      ensures var i := EmptyFrom(old(slots), t, 0);
              if i == FD_MAX then fd == -1 && View() == old(View())
              else fd == i && View() == old(View()).(slots := old(slots)[Slot(t, i) := file])
    {
      var i: nat := 0;
      while i < FD_MAX
        invariant i <= FD_MAX && EmptyFrom(slots, t, 0) == EmptyFrom(slots, t, i)
        invariant Valid() && View() == old(View()) && tables == old(tables)
      {
        var entry := GetEntry(t, i);
        if entry.None? {
          SetEntry(t, i, Some(file));
          return i;
        }
        i := i + 1;
      }
      fd := -1;
    }

    /** `fd_table_create` and `fd_table_clone`: the table of a forked process. */
    method Fork(dst: TableId, src: TableId)
      requires Valid() && Inv(View()) && dst !in tables && src in tables
      modifies this`files, this`tables, this`slots, this`repr
      ensures Valid() && View() == Next(old(View()), EFork(dst, src))
    {
      TableOk(View(), dst);
      var entries := new Option<FileId>[FD_MAX](i => None);
      tables := tables[dst := entries];
      repr := repr + {entries};
      forall u: TableId ensures TableIs(u) { assert old(TableIs(u)); }
      assert View() == old(View()).(tables := old(View()).tables + {dst});
      CloneEntries(dst, src);
    }

    method CloneEntries(dst: TableId, src: TableId)
      requires Valid() && Inv(View()) && dst in tables && src in tables && dst != src
      requires forall j: nat :: Slot(dst, j) !in slots
      modifies this`files, this`slots, tables[dst]
      ensures Valid() && View() == CloneFrom(old(View()), dst, src, 0)
    {
      var i: nat := 0;
      while i < FD_MAX
        invariant i <= FD_MAX && Valid() && Inv(View()) && tables == old(tables)
        invariant forall j: nat | j >= i :: Slot(dst, j) !in slots
        invariant CloneFrom(View(), dst, src, i) == CloneFrom(old(View()), dst, src, 0)
      {
        var file := GetEntry(src, i);
        if file.Some? {
          CloneEntry(dst, src, i, file.value);
        }
        i := i + 1;
      }
    }

    method CloneEntry(dst: TableId, src: TableId, i: nat, file: FileId)
      requires Valid() && Inv(View()) && dst in tables && src in tables && dst != src && i < FD_MAX
      requires Entry(slots, Slot(src, i)) == Some(file) && Slot(dst, i) !in slots
      modifies this`files, this`slots, tables[dst]
      ensures Valid() && Inv(View())
      ensures View() == Ref(old(View()), file).(slots := old(slots)[Slot(dst, i) := file])
    {
      Named(View(), Slot(src, i));
      AddRef(View(), file, Slot(dst, i));
      FileRef(file);
      SetEntry(dst, i, Some(file));
    }

    /** `fd_table_destroy` */
    method Destroy(t: TableId)
      requires Valid() && Inv(View()) && t in tables
      modifies this`files, this`pipes, this`closed, this`slots, this`tables, tables[t]
      ensures Valid() && View() == DestroyFrom(old(View()), t, 0)
    {
      CloseAll(t);
      label Closed:
      tables := tables - {t};
      forall u: TableId ensures TableIs(u) { assert old@Closed(TableIs(u)); }
    }

    method CloseAll(t: TableId)
      requires Valid() && Inv(View()) && t in tables
      modifies this`files, this`pipes, this`closed, this`slots, tables[t]
      ensures Valid() && DestroyFrom(View(), t, FD_MAX) == DestroyFrom(old(View()), t, 0)
    {
      for i := 0 to FD_MAX
        invariant Valid() && Inv(View())
        invariant DestroyFrom(View(), t, i) == DestroyFrom(old(View()), t, 0)
      {
        CloseFdOk(View(), Slot(t, i));
        var code := TableClose(t, i);
      }
    }
  }
}
