/** Processes that use a semaphore: how its steps move them in and out of the section it guards. */
module SemClients {
  import opened Options
  import opened SemModel
  import opened SemProtocol

  function Change<K>(ks: seq<K>, p: Pid, f: K -> K): seq<K> {
    if p < |ks| then ks[p := f(ks[p])] else ks
  }

  /** The processes after a step of a semaphore: whoever it grants its token enters, a caller that gets none is left as `idle` says. */
  function Moved<K>(ks: seq<K>, t: State, e: Event, enter: K -> K, idle: K -> K): seq<K> {
    match Granted(t, e)
    case Some(g) => Change(ks, g, enter)
    case None => if e.Wait? || e.Post? then Change(ks, e.p, idle) else ks
  }

  ghost function Owners<K>(ks: seq<K>, busy: K -> bool): set<Pid> {
    set p: Pid | p < |ks| && busy(ks[p])
  }

  lemma OwnersUpdate<K>(ks: seq<K>, p: nat, k: K, busy: K -> bool)
    requires p < |ks|
    ensures Owners(ks[p := k], busy) == if busy(k) then Owners(ks, busy) + {p} else Owners(ks, busy) - {p}
  {
  }

  /** The ones inside are the holders of the semaphore's tokens. */
  lemma OwnersMoved<K>(ks: seq<K>, t: State, e: Event, enter: K -> K, idle: K -> K, busy: K -> bool)
    requires e.p < |ks| && forall k :: busy(enter(k)) && !busy(idle(k))
    requires Granted(t, e).Some? ==> Granted(t, e).value < |ks|
    requires (e.Wait? ==> !busy(ks[e.p])) && !e.Rouse?
    ensures Owners(Moved(ks, t, e, enter, idle), busy) == HoldersAfter(t, e, Owners(ks, busy))
  {
    var r := Moved(ks, t, e, enter, idle);
    match Granted(t, e)
    case Some(g) => OwnersUpdate(ks, g, r[g], busy);
    case None => if e.Wait? || e.Post? { OwnersUpdate(ks, e.p, r[e.p], busy); }
  }
}
