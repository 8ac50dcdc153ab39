/** Which open reaches which pipe: a pipe keeps 31 characters of its name, and is filed by the hash of all of them. */
module PipeNames {
  import opened FdModel
  import opened FdTheorems
  import opened Lists
  import opened Options
  import Names

  /** The pipe that an open of `name` reaches without creating it. */
  ghost function Lookup(s: State, name: string): Option<PipeId>
    requires |s.buckets| == PIPE_HASH_BUCKETS
  {
    var list := s.buckets[PipeHash(name)];
    var i := Find(list, s.pipes, name);
    if i < |list| then Some(list[i]) else None
  }

  /** An open reaches a pipe exactly when the pipe is not unlinked, its stored name is the one given, the two hash alike, and no newer pipe in the bucket has that name. */
  lemma ReachesIff(s: State, name: string, q: PipeId, rd: bool, wr: bool)
    requires Inv(s) && q in s.pipes
    ensures KOpen(s, name, rd, wr).1 == q <==>
              && !s.pipes[q].unlinked && s.pipes[q].name == name && s.pipes[q].home == PipeHash(name)
              && var list := s.buckets[PipeHash(name)];
                 exists i | 0 <= i < |list| :: list[i] == q && forall r | r in list[..i] :: r in s.pipes && s.pipes[r].name != name
  {
    var list := s.buckets[PipeHash(name)];
    var k := Find(list, s.pipes, name);
    assert BucketOk(s, PipeHash(name)) && PipeOk(s, q, 0, 0) && PipeOk(s, s.nextPipe, 0, 0);
    if k < |list| && list[k] == q {
      forall r | r in list[..k] ensures r in s.pipes && s.pipes[r].name != name { assert r in list; }
    }
    if i :| 0 <= i < |list| && list[i] == q && forall r | r in list[..i] :: r in s.pipes && s.pipes[r].name != name {
      forall j | 0 <= j < i ensures list[j] in s.pipes && s.pipes[list[j]].name != name { assert list[j] in list[..i]; }
    }
  }

  lemma {:induction false} FindStays(list: seq<PipeId>, pipes: map<PipeId, Pipe>, pipes': map<PipeId, Pipe>, name: string)
    requires forall q | q in list :: (q in pipes <==> q in pipes') && (q in pipes ==> pipes'[q].name == pipes[q].name)
    ensures Find(list, pipes', name) == Find(list, pipes, name)
  {
    if list != [] { FindStays(list[1..], pipes, pipes', name); }
  }

  lemma LookupStays(s: State, u: State, name: string)
    requires |s.buckets| == PIPE_HASH_BUCKETS && PipesOnly(s, u)
    requires forall q | q in s.buckets[PipeHash(name)] :: q in s.pipes && !s.pipes[q].unlinked
    ensures Lookup(u, name) == Lookup(s, name)
  {
    FindStays(s.buckets[PipeHash(name)], s.pipes, u.pipes, name);
  }

  /** Everything in a bucket still has its name. */
  lemma NotUnlinked(s: State, b: nat)
    requires Inv(s) && b < PIPE_HASH_BUCKETS
    ensures forall q | q in s.buckets[b] :: q in s.pipes && !s.pipes[q].unlinked
  {
    assert BucketOk(s, b);
    forall q | q in s.buckets[b] ensures q in s.pipes && !s.pipes[q].unlinked { assert PipeOk(s, q, 0, 0); }
  }

  lemma LongNames(s: State, name: string)
    requires Inv(s) && |name| >= PIPE_NAME_MAX
    ensures Lookup(s, name).None?
  {
    forall q | q in s.pipes ensures s.pipes[q].name != name { assert PipeOk(s, q, 0, 0); }
  }

  lemma LookupFound(s: State, n: string, rd: bool, wr: bool, m: string)
    requires Inv(s) && Lookup(s, n).Some?
    ensures var (u, q) := KOpen(s, n, rd, wr);
            && |u.buckets| == PIPE_HASH_BUCKETS && q in s.pipes && !s.pipes[q].unlinked && |n| < PIPE_NAME_MAX
            && Lookup(u, m) == Lookup(s, m) && Lookup(s, n) == Some(q) && s.pipes[q].name == n && s.pipes[q].home == PipeHash(n)
  {
    var (u, q) := KOpen(s, n, rd, wr);
    assert BucketOk(s, PipeHash(m)) && BucketOk(s, PipeHash(n)) && PipeOk(s, q, 0, 0);
    FindStays(s.buckets[PipeHash(m)], s.pipes, u.pipes, m);
  }

  lemma LookupNew(s: State, n: string, rd: bool, wr: bool, m: string)
    requires Inv(s) && Lookup(s, n).None?
    ensures var (u, q) := KOpen(s, n, rd, wr);
            && |u.buckets| == PIPE_HASH_BUCKETS && q == s.nextPipe && q !in s.pipes
            && Lookup(u, m) == if m == Stored(n) && PipeHash(m) == PipeHash(n) then Some(q) else Lookup(s, m)
  {
    var (u, q) := KOpen(s, n, rd, wr);
    assert BucketOk(s, PipeHash(m)) && PipeOk(s, q, 0, 0);
    FindStays(s.buckets[PipeHash(m)], s.pipes, u.pipes, m);
    if PipeHash(m) == PipeHash(n) {
      assert u.buckets[PipeHash(m)][1..] == s.buckets[PipeHash(m)];
    }
  }

  /** After an open of `n` its pipe is what its stored name finds if the two hash alike; every other name finds what it found before. */
  lemma LookupOpen(s: State, n: string, rd: bool, wr: bool, m: string)
    requires Inv(s)
    ensures var (u, q) := KOpen(s, n, rd, wr);
            && |u.buckets| == PIPE_HASH_BUCKETS && q < u.nextPipe && q in u.pipes && u.pipes[q].name == Stored(n) && u.pipes[q].home == PipeHash(n)
            && Lookup(u, m) == if m == Stored(n) && PipeHash(m) == PipeHash(n) then Some(q) else Lookup(s, m)
  {
    var q := KOpen(s, n, rd, wr).1;
    if Lookup(s, n).Some? {
      LookupFound(s, n, rd, wr, m);
      assert PipeOk(s, q, 0, 0);
    } else {
      LookupNew(s, n, rd, wr, m);
    }
  }

  /** What a name finds is in the bucket of its hash and has that name. */
  lemma LookupSays(s: State, m: string)
    requires Inv(s) && Lookup(s, m).Some?
    ensures var q := Lookup(s, m).value; q in s.pipes && s.pipes[q].name == m && s.pipes[q].home == PipeHash(m)
  {
    assert BucketOk(s, PipeHash(m));
  }

  /** Right after an open of `n`, an open of `m` reaches the same pipe exactly when `m` is what was stored and hashes alike. */
  lemma OpenReaches(s: State, n: string, m: string, rd: bool, wr: bool, rd': bool, wr': bool)
    requires Inv(s)
    ensures var (u, q) := KOpen(s, n, rd, wr);
            |u.buckets| == PIPE_HASH_BUCKETS && (KOpen(u, m, rd', wr').1 == q <==> m == Stored(n) && PipeHash(m) == PipeHash(n))
  {
    LookupOpen(s, n, rd, wr, m);
    if Lookup(s, m).Some? { LookupSays(s, m); }
    if Lookup(s, n).Some? { LookupFound(s, n, rd, wr, m); } else { LookupNew(s, n, rd, wr, m); }
  }

  /** So the second open of a name shares the first one's pipe exactly when the name has fewer than 32 characters. */
  lemma ReopenFinds(s: State, name: string, rd: bool, wr: bool, rd': bool, wr': bool)
    requires Inv(s)
    ensures var (u, q) := KOpen(s, name, rd, wr);
            |u.buckets| == PIPE_HASH_BUCKETS && (KOpen(u, name, rd', wr').1 == q <==> |name| < PIPE_NAME_MAX)
  {
    OpenReaches(s, name, name, rd, wr, rd', wr');
  }

  // ------------------------------------------------------------------
  // Over runs
  // ------------------------------------------------------------------

  /** The event puts a pipe with a shortened name in front of those called `name`. */
  predicate Shadows(e: Event, name: string) {
    && e.EOpenPipe? && (e.rd || e.wr) && |e.name| >= PIPE_NAME_MAX
    && Stored(e.name) == name && PipeHash(e.name) == PipeHash(name)
  }

  /** What a name finds changes exactly when the name is unlinked or shadowed. */
  lemma LookupStep(s: State, e: Event, name: string)
    requires Inv(s) && Enabled(s, e) && Lookup(s, name).Some?
    ensures |Next(s, e).buckets| == PIPE_HASH_BUCKETS
    ensures Lookup(Next(s, e), name) == Lookup(s, name) <==> e != EUnlink(name) && !Shadows(e, name)
  {
    InvNext(s, e);
    match e
    case EUnlink(n) => LookupUnlink(s, n, name);
    case EOpenPipe(t, n, rd, wr, room) =>
      if rd || wr {
        var v := KOpen(s, n, rd, wr).0;
        OpenPipes(s, t, n, rd, wr, room);
        LookupOpen(s, n, rd, wr, name);
        OpenNotUnlinked(s, n, rd, wr, PipeHash(name));
        LookupStays(v, Next(s, e), name);
        if |n| >= PIPE_NAME_MAX { LongNames(s, n); }
        assert BucketOk(s, PipeHash(name)) && PipeOk(s, s.nextPipe, 0, 0);
      }
    case _ =>
      NextPipes(s, e);
      NotUnlinked(s, PipeHash(name));
      LookupStays(s, Next(s, e), name);
  }

  lemma OpenNotUnlinked(s: State, name: string, rd: bool, wr: bool, b: nat)
    requires Inv(s) && b < PIPE_HASH_BUCKETS
    ensures var u := KOpen(s, name, rd, wr).0;
            |u.buckets| == PIPE_HASH_BUCKETS && forall q | q in u.buckets[b] :: q in u.pipes && !u.pipes[q].unlinked
  {
    NotUnlinked(s, b);
    NotUnlinked(s, PipeHash(name));
  }

  lemma {:induction false} FindCut(list: seq<PipeId>, i: nat, pipes: map<PipeId, Pipe>, name: string)
    requires i < |list| && !(list[i] in pipes && pipes[list[i]].name == name) && Find(list, pipes, name) < |list|
    ensures var k := Find(Cut(list, i), pipes, name); k < |list| - 1 && Cut(list, i)[k] == list[Find(list, pipes, name)]
  {
    if i == 0 {
      assert Cut(list, 0) == list[1..];
    } else if !(list[0] in pipes && pipes[list[0]].name == name) {
      assert Cut(list, i)[1..] == Cut(list[1..], i - 1);
      FindCut(list[1..], i - 1, pipes, name);
    }
  }

  lemma LookupUnlink(s: State, n: string, name: string)
    requires Inv(s) && Lookup(s, name).Some?
    ensures |KUnlink(s, n).buckets| == PIPE_HASH_BUCKETS
    ensures Lookup(KUnlink(s, n), name) == Lookup(s, name) <==> n != name
  {
    var (u, list) := (KUnlink(s, n), s.buckets[PipeHash(n)]);
    var i := Find(list, s.pipes, n);
    assert BucketOk(s, PipeHash(n)) && BucketOk(s, PipeHash(name));
    if i < |list| {
      CutMembers(list, i);
      FindStays(u.buckets[PipeHash(name)], s.pipes, u.pipes, name);
      if n != name && PipeHash(n) == PipeHash(name) { FindCut(list, i, s.pipes, name); }
    }
  }

  lemma {:induction false} PipeRun(s: State, es: seq<Event>, q: PipeId)
    requires Inv(s) && CanRun(s, es) && q < s.nextPipe
    ensures var u := Run(s, es);
            q < u.nextPipe && (q in u.pipes ==> q in s.pipes && u.pipes[q].name == s.pipes[q].name && u.pipes[q].home == s.pipes[q].home)
    decreases |es|
  {
    if es != [] {
      InvNext(s, es[0]);
      PipeStep(s, es[0], q);
      PipeRun(Next(s, es[0]), es[1..], q);
    }
  }

  /** Whatever happens in between, two opens that reach the same pipe were given names that agree up to the 31st character and hash alike; of two that fit, the same name. */
  lemma SharersAgree(s: State, e: Event, es: seq<Event>, m: string, rd: bool, wr: bool)
    requires Inv(s) && Enabled(s, e) && e.EOpenPipe? && (e.rd || e.wr)
    requires |Next(s, e).buckets| == PIPE_HASH_BUCKETS && CanRun(Next(s, e), es)
    requires |Run(Next(s, e), es).buckets| == PIPE_HASH_BUCKETS
    requires KOpen(Run(Next(s, e), es), m, rd, wr).1 == KOpen(s, e.name, e.rd, e.wr).1
    ensures m == Stored(e.name) && PipeHash(m) == PipeHash(e.name)
    ensures |e.name| < PIPE_NAME_MAX ==> m == e.name
  {
    var q := KOpen(s, e.name, e.rd, e.wr).1;
    var t := Next(s, e);
    var u := Run(t, es);
    InvNext(s, e);
    InvRun(t, es);
    LookupOpen(s, e.name, e.rd, e.wr, m);
    OpenPipes(s, e.t, e.name, e.rd, e.wr, e.room);
    PipeRun(t, es, q);
    assert BucketOk(u, PipeHash(m)) && PipeOk(u, u.nextPipe, 0, 0);
  }

  /** Until a name is unlinked or shadowed every open of it, by anyone, reaches the same pipe. */
  lemma {:induction false} SamePipe(s: State, es: seq<Event>, name: string, rd: bool, wr: bool)
    requires Inv(s) && CanRun(s, es) && Lookup(s, name).Some?
    requires EUnlink(name) !in es && forall i | 0 <= i < |es| :: !Shadows(es[i], name)
    ensures |Run(s, es).buckets| == PIPE_HASH_BUCKETS && KOpen(Run(s, es), name, rd, wr).1 == Lookup(s, name).value
    decreases |es|
  {
    if es != [] {
      assert !Shadows(es[0], name);
      InvNext(s, es[0]);
      LookupStep(s, es[0], name);
      SamePipe(Next(s, es[0]), es[1..], name, rd, wr);
    }
  }

  // ------------------------------------------------------------------
  // Two names for one pipe
  // ------------------------------------------------------------------

  /** The hash of the empty name is the value it starts from; one byte more multiplies it by 33 and adds the byte, modulo 2^32. */
  lemma {:induction false} HashSnoc(name: string, c: char, hash: int)
    requires 0 <= hash < Names.WORD32
    ensures Names.HashFrom([], hash) == hash
    ensures Names.HashFrom(name + [c], hash) == (Names.HashFrom(name, hash) * 33 + Names.Signed(c)) % Names.WORD32
    decreases |name|
  {
    if name == [] {
      assert (name + [c])[1..] == [];
    } else {
      assert (name + [c])[1..] == name[1..] + [c];
      HashSnoc(name[1..], c, (hash * 33 + Names.Signed(name[0])) % Names.WORD32);
    }
  }

  lemma HashZero(name: string)
    ensures PipeHash(name + "0") == PipeHash(name)
  {
    HashSnoc(name, '0', 5381);
    var h := Names.HashFrom(name, 5381);
    var x := h * 33 + 48;
    assert x % Names.WORD32 == x - x / Names.WORD32 * 268435456 * PIPE_HASH_BUCKETS;
  }

  /** Any name of 31 characters reaches the pipe that was opened as that name with a 0 after it. */
  lemma SharedPrefix(s: State, name: string, rd: bool, wr: bool, rd': bool, wr': bool)
    requires Inv(s) && |name| == PIPE_NAME_MAX - 1
    ensures var (u, q) := KOpen(s, name + "0", rd, wr);
            |u.buckets| == PIPE_HASH_BUCKETS && KOpen(u, name, rd', wr').1 == q && KOpen(u, name + "0", rd', wr').1 != q
  {
    HashZero(name);
    assert Stored(name + "0") == name;
    OpenReaches(s, name + "0", name, rd, wr, rd', wr');
    OpenReaches(s, name + "0", name + "0", rd, wr, rd', wr');
  }
}
