/** What each section of a semaphore call leaves behind. */
module SemOutcomes {
  import opened Lists
  import opened Options
  import opened SemModel
  import opened SemProtocol

  /** A wait takes a token if there is one; else its caller stands last in the queue and sleeps. */
  lemma WaitOutcome(s: State, p: Pid)
    requires Enabled(s, Wait(p))
    ensures var t := Step(s, Wait(p));
            if s.sem.count > 0 then t == s.(sem := Sem(s.sem.count - 1, s.sem.queue), grants := s.grants + 1)
            else
              && p in s.home
              && t == s.(sem := Sem(0, s.sem.queue + [Arrival(s.home[p], s.next)]), next := s.next + 1, here := s.here + {p})
  {
  }

  /** A post takes the first waiter off the queue; without waiters it raises the count by one, up to 2^32 - 1, where the token is dropped. */
  lemma PostOutcome(s: State, p: Pid)
    requires Enabled(s, Post(p))
    ensures var t := Step(s, Post(p));
            && t == s.(sem := t.sem, handed := t.handed, pops := t.pops, lost := t.lost, posts := s.posts + 1)
            && if s.sem.queue != [] then
                 && s.sem.queue == [s.sem.queue[0]] + t.sem.queue && t.sem.count == s.sem.count && t.lost == s.lost
                 && t.handed == s.handed[p := s.sem.queue[0]] && t.pops == s.pops + [s.sem.queue[0]]
               else
                 && t.sem.queue == [] && t.handed == s.handed && t.pops == s.pops
                 && (s.sem.count < 0xFFFF_FFFF ==> t.sem.count == s.sem.count + 1 && t.lost == s.lost)
                 && (s.sem.count >= 0xFFFF_FFFF ==> t.sem.count == s.sem.count && t.lost == s.lost + 1)
  {
  }

  /** The wake after it: a process that is blocked goes on, whatever it waited for; otherwise the token goes to the counter. */
  lemma WakeOutcome(s: State, p: Pid)
    requires Enabled(s, Wake(p)) && s.here !! s.away
    ensures var (t, x) := (Step(s, Wake(p)), s.handed[p].slot);
            && t.handed == s.handed - {p} && t.sem.queue == s.sem.queue && t.table == s.table && t.home == s.home
            && if x in s.table && s.table[x] in s.here + s.away then
                 && t.here == s.here - {s.table[x]} && t.away == s.away - {s.table[x]} && t.sem.count == s.sem.count && t.lost == s.lost
                 && t.grants == s.grants + (if s.table[x] in s.here then 1 else 0)
               else
                 && t.here == s.here && t.away == s.away && t.grants == s.grants
                 && (s.sem.count < 0xFFFF_FFFF ==> t.sem.count == s.sem.count + 1 && t.lost == s.lost)
                 && (s.sem.count >= 0xFFFF_FFFF ==> t.sem.count == s.sem.count && t.lost == s.lost + 1)
  {
  }

  /** A process that ends frees its slot; a kill takes the slot's nodes off the queue of a semaphore that has its name, and no others. */
  lemma EndOutcome(s: State, p: Pid)
    requires Enabled(s, Kill(p))
    ensures var (k, o, x) := (Step(s, Kill(p)), Step(s, Orphan(p)), s.home[p]);
            && x in s.table && k.table == o.table == s.table - {x} && k.here == o.here == s.here - {p} && k.away == o.away == s.away - {p}
            && o.sem == s.sem && (!s.named ==> k.sem == s.sem) && k.sem.count == s.sem.count
            && (s.named ==> forall a :: a in k.sem.queue <==> a in s.sem.queue && a.slot != x)
  {
    FilterMembers(s.sem.queue, OtherThan(SlotOf(s, p)));
  }

  /** What happens to a process outside the semaphore changes nothing but where that process is. */
  lemma OutsideOutcome(s: State, p: Pid, x: Slot)
    ensures Enabled(s, Spawn(p, x)) ==> Step(s, Spawn(p, x)) == s.(table := s.table[x := p], home := s.home[p := x])
    ensures Enabled(s, Sleep(p)) ==> Step(s, Sleep(p)) == s.(away := s.away + {p})
    ensures Enabled(s, Rouse(p)) ==> Step(s, Rouse(p)) == s.(here := s.here - {p}, away := s.away - {p})
    ensures Enabled(s, Unlink(p)) ==> Step(s, Unlink(p)) == s.(named := false)
  {
  }
}
