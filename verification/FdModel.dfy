/**
 * Open files, descriptor tables and the pipes behind them, as values: who
 * refers to what, and when it is closed and freed.
 */
module FdModel {
  import opened Lists
  import opened Options
  import Names

  const FD_MAX := 64
  const PIPE_NAME_MAX := 32
  const PIPE_HASH_BUCKETS := 16

  type TableId = nat
  type FileId = nat      // one allocation of a file; never used again
  type PipeId = nat      // one allocation of a pipe

  /** `pipe` is None for the terminal. */
  datatype File = File(pipe: Option<PipeId>, rd: bool, wr: bool, refcount: int)

  datatype Pipe = Pipe(name: string, home: nat, readers: nat, writers: nat, unlinked: bool)

  /** Entry `i` of table `t`. */
  datatype Slot = Slot(t: TableId, i: nat)

  datatype State = State(
    files: map<FileId, File>,
    tables: set<TableId>,
    slots: map<Slot, FileId>,        // the entries that are not NULL
    std: set<FileId>,                // the three standard files
    pipes: map<PipeId, Pipe>,
    buckets: seq<seq<PipeId>>,
    nextFile: FileId, nextPipe: PipeId,
    closed: seq<FileId>              // the calls of the close operation, in order
  )

  // ------------------------------------------------------------------
  // Pipes by name
  // ------------------------------------------------------------------

  /** `pipe_name_copy` keeps 31 characters. */
  function Stored(name: string): string {
    if |name| < PIPE_NAME_MAX then name else name[..PIPE_NAME_MAX - 1]
  }

  function PipeHash(name: string): (b: nat)
    ensures b < PIPE_HASH_BUCKETS
  {
    Names.Hash(name, PIPE_HASH_BUCKETS)
  }

  /** The first pipe of the bucket whose stored name is `name`, or the length of the bucket. */
  function Find(list: seq<PipeId>, pipes: map<PipeId, Pipe>, name: string): (i: nat)
    ensures i <= |list|
    ensures i < |list| ==> list[i] in pipes && pipes[list[i]].name == name
    ensures forall j | 0 <= j < i :: !(list[j] in pipes && pipes[list[j]].name == name)
  {
    if list == [] || (list[0] in pipes && pipes[list[0]].name == name) then 0 else 1 + Find(list[1..], pipes, name)
  }

  /** `kpipe_open` */
  function KOpen(s: State, name: string, rd: bool, wr: bool): (State, PipeId)
    requires |s.buckets| == PIPE_HASH_BUCKETS
  {
    var b := PipeHash(name);
    var i := Find(s.buckets[b], s.pipes, name);
    var (r, w) := (if rd then 1 else 0, if wr then 1 else 0);
    if i < |s.buckets[b]| then
      var q := s.buckets[b][i];
      var p := s.pipes[q];
      (s.(pipes := s.pipes[q := p.(readers := p.readers + r, writers := p.writers + w)]), q)
    else
      (s.(pipes := s.pipes[s.nextPipe := Pipe(Stored(name), b, r, w, false)],
          buckets := s.buckets[b := [s.nextPipe] + s.buckets[b]], nextPipe := s.nextPipe + 1), s.nextPipe)
  }

  /** `kpipe_close`, what it does to the counts and whether the pipe is freed. */
  function KClose(s: State, q: PipeId, rd: bool, wr: bool): State {
    if q !in s.pipes then s
    else
      var p := s.pipes[q];
      var p' := p.(readers := if rd && p.readers > 0 then p.readers - 1 else p.readers,
                   writers := if wr && p.writers > 0 then p.writers - 1 else p.writers);
      s.(pipes := if p'.unlinked && p'.readers == 0 && p'.writers == 0 then s.pipes - {q} else s.pipes[q := p'])
  }

  /** `kpipe_unlink` */
  function KUnlink(s: State, name: string): State
    requires |s.buckets| == PIPE_HASH_BUCKETS
  {
    var b := PipeHash(name);
    var i := Find(s.buckets[b], s.pipes, name);
    if i == |s.buckets[b]| then s
    else
      var q := s.buckets[b][i];
      var p := s.pipes[q].(unlinked := true);
      s.(buckets := s.buckets[b := Cut(s.buckets[b], i)],
         pipes := if p.readers == 0 && p.writers == 0 then s.pipes - {q} else s.pipes[q := p])
  }

  // ------------------------------------------------------------------
  // Files and tables
  // ------------------------------------------------------------------

  /** `file_ref` */
  function Ref(s: State, f: FileId): State {
    if f !in s.files then s else s.(files := s.files[f := s.files[f].(refcount := s.files[f].refcount + 1)])
  }

  /** `file_release`: the last reference closes the file, and with it one end of its pipe, and frees it. */
  function Release(s: State, f: FileId): State {
    if f !in s.files then s
    else
      var x := s.files[f].(refcount := s.files[f].refcount - 1);
      if x.refcount > 0 then s.(files := s.files[f := x])
      else
        var t := s.(files := s.files - {f}, closed := s.closed + [f]);
        if x.pipe.Some? then KClose(t, x.pipe.value, x.rd, x.wr) else t
  }

  /** `fd_table_close` */
  function CloseFd(s: State, k: Slot): State {
    if k !in s.slots then s else Release(s.(slots := s.slots - {k}), s.slots[k])
  }

  /** `fd_table_dup2` within table `t`. */
  function Dup2(s: State, t: TableId, from: int, to: int): State {
    if from < 0 || from >= FD_MAX || to < 0 || to >= FD_MAX || Slot(t, from) !in s.slots || from == to then s
    else
      var src := s.slots[Slot(t, from)];
      var u := if Slot(t, to) in s.slots then Release(s, s.slots[Slot(t, to)]) else s;
      var v := Ref(u, src);
      v.(slots := v.slots[Slot(t, to) := src])
  }

  /** The lowest empty entry of the table from `i` on, FD_MAX if there is none. */
  function EmptyFrom(slots: map<Slot, FileId>, t: TableId, i: nat): (j: nat)
    requires i <= FD_MAX
    ensures i <= j <= FD_MAX && (j < FD_MAX ==> Slot(t, j) !in slots)
    ensures forall k | i <= k < j :: Slot(t, k) in slots
    decreases FD_MAX - i
  {
    if i == FD_MAX || Slot(t, i) !in slots then i else EmptyFrom(slots, t, i + 1)
  }

  /** `fd_table_clone` from entry `i` on; `dst` starts out empty. */
  function CloneFrom(s: State, dst: TableId, src: TableId, i: nat): State
    decreases FD_MAX - i
  {
    if i >= FD_MAX then s
    else if Slot(src, i) in s.slots then
      var f := s.slots[Slot(src, i)];
      var u := Ref(s, f);
      CloneFrom(u.(slots := u.slots[Slot(dst, i) := f]), dst, src, i + 1)
    else CloneFrom(s, dst, src, i + 1)
  }

  /** `fd_table_destroy` from entry `i` on. */
  function DestroyFrom(s: State, t: TableId, i: nat): State
    decreases FD_MAX - i
  {
    if i >= FD_MAX then s.(tables := s.tables - {t})
    else DestroyFrom(CloseFd(s, Slot(t, i)), t, i + 1)
  }

  /** `file_create` for one or both ends of a pipe. */
  function Create(s: State, q: PipeId, rd: bool, wr: bool): State {
    s.(files := s.files[s.nextFile := File(Some(q), rd, wr, 1)], nextFile := s.nextFile + 1)
  }

  /** `fd_table_allocate`; when the table is full the file is released. */
  function Install(s: State, t: TableId, f: FileId): State {
    var i := EmptyFrom(s.slots, t, 0);
    if i == FD_MAX then Release(s, f) else s.(slots := s.slots[Slot(t, i) := f])
  }

  /** `sys_pipe_open` in table `t`; `room` says whether a file can be allocated. */
  function OpenPipe(s: State, t: TableId, name: string, rd: bool, wr: bool, room: bool): State
    requires |s.buckets| == PIPE_HASH_BUCKETS
  {
    if !rd && !wr then s
    else
      var (u, q) := KOpen(s, name, rd, wr);
      if room then Install(Create(u, q, rd, wr), t, u.nextFile) else KClose(u, q, rd, wr)
  }

  datatype Event =
    | EOpenPipe(t: TableId, name: string, rd: bool, wr: bool, room: bool)
    | EUnlink(name: string)
    | EClose(t: TableId, fd: int)
    | EDup2(t: TableId, from: int, to: int)
    | EFork(dst: TableId, src: TableId)     // fd_table_create and fd_table_clone
    | EDestroy(t: TableId)

  ghost predicate Enabled(s: State, e: Event) {
    match e
    case EFork(dst, src) => dst !in s.tables && src in s.tables
    case EUnlink(_) => true
    case _ => e.t in s.tables
  }

  function Next(s: State, e: Event): State
    requires |s.buckets| == PIPE_HASH_BUCKETS
  {
    match e
    case EOpenPipe(t, name, rd, wr, room) => OpenPipe(s, t, name, rd, wr, room)
    case EUnlink(name) => KUnlink(s, name)
    case EClose(t, fd) => if 0 <= fd < FD_MAX then CloseFd(s, Slot(t, fd)) else s
    case EDup2(t, a, b) => Dup2(s, t, a, b)
    case EFork(dst, src) => CloneFrom(s.(tables := s.tables + {dst}), dst, src, 0)
    case EDestroy(t) => DestroyFrom(s, t, 0)
  }

  // ------------------------------------------------------------------
  // The invariant
  // ------------------------------------------------------------------

  function Refs(s: State, f: FileId): set<Slot> {
    set k | k in s.slots && s.slots[k] == f
  }

  function Std(s: State, f: FileId): nat { if f in s.std then 1 else 0 }

  /** The files through which pipe `q` can be read, or written. */
  function Readers(files: map<FileId, File>, q: PipeId): set<FileId> {
    set f | f in files && files[f].pipe == Some(q) && files[f].rd
  }

  function Writers(files: map<FileId, File>, q: PipeId): set<FileId> {
    set f | f in files && files[f].pipe == Some(q) && files[f].wr
  }

  /** A file counts the table entries that name it, and the kernel's own reference to a standard file; `extra` more are on their way. */
  ghost predicate FileOk(s: State, f: FileId, extra: int) {
    if f in s.files then
      && f < s.nextFile && s.files[f].refcount == |Refs(s, f)| + Std(s, f) + extra > 0 && f !in s.closed
      && (s.files[f].pipe.Some? ==> s.files[f].pipe.value in s.pipes && (s.files[f].rd || s.files[f].wr))
    else Refs(s, f) == {} && f !in s.std && extra == 0 && (f < s.nextFile ==> f in s.closed)
  }

  /** A pipe counts its live files on either side (`r` and `w` more are on their way), is in its bucket until it is unlinked, and is then in use. */
  ghost predicate PipeOk(s: State, q: PipeId, r: int, w: int) {
    if q in s.pipes then
      var p := s.pipes[q];
      && q < s.nextPipe && |p.name| < PIPE_NAME_MAX && p.readers == |Readers(s.files, q)| + r && p.writers == |Writers(s.files, q)| + w
      && p.home < |s.buckets| && (p.unlinked <==> q !in s.buckets[p.home])
      && (p.unlinked ==> p.readers + p.writers > 0)
    else forall f | f in s.files :: s.files[f].pipe != Some(q)
  }

  ghost predicate BucketOk(s: State, b: nat) {
    b < |s.buckets| ==> NoDup(s.buckets[b]) && forall q | q in s.buckets[b] :: q in s.pipes && s.pipes[q].home == b
  }

  ghost predicate SlotOk(s: State, k: Slot) {
    k in s.slots ==> k.t in s.tables && k.i < FD_MAX
  }

  /** Everything but the counts of files and pipes. */
  ghost predicate Shape(s: State) {
    && |s.buckets| == PIPE_HASH_BUCKETS && NoDup(s.closed) && (forall f | f in s.closed :: f < s.nextFile)
    && (forall b: nat {:trigger BucketOk(s, b)} :: BucketOk(s, b))
    && (forall k {:trigger SlotOk(s, k)} :: SlotOk(s, k))
  }

  /** Exact but for `n` references to `x` that are counted and not in a table. */
  ghost predicate Loose(s: State, x: FileId, n: nat) {
    && Shape(s)
    && (forall f: FileId {:trigger FileOk(s, f, 0)} | f != x :: FileOk(s, f, 0)) && FileOk(s, x, n)
    && (forall q: PipeId {:trigger PipeOk(s, q, 0, 0)} :: PipeOk(s, q, 0, 0))
  }

  ghost predicate Inv(s: State) {
    && Shape(s)
    && (forall f: FileId {:trigger FileOk(s, f, 0)} :: FileOk(s, f, 0))
    && (forall q: PipeId {:trigger PipeOk(s, q, 0, 0)} :: PipeOk(s, q, 0, 0))
  }
}
