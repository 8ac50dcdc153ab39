/** One counting semaphore as a value: the atomic sections of `ksem_wait` and `ksem_post`. */
module SemModel {
  import opened Lists
  import opened Options

  const UINT32_MAX := 0xFFFF_FFFF

  /** `T` is whatever identifies a waiter. */
  datatype Sem<T> = Sem(count: nat, queue: seq<T>)

  /** `ksem_wait`: take a token, or join the queue. */
  function Take<T>(s: Sem<T>, w: T): (Sem<T>, bool) {
    if s.count > 0 then (s.(count := s.count - 1), true) else (s.(queue := s.queue + [w]), false)
  }

  /** A token that nobody is waiting for; lost when the counter is full. */
  function Return<T>(s: Sem<T>): Sem<T> {
    if s.count < UINT32_MAX then s.(count := s.count + 1) else s
  }

  /** `ksem_post`, first section: the first waiter is taken off the queue, or the counter goes up. */
  function Give<T>(s: Sem<T>): (Sem<T>, Option<T>) {
    if s.queue != [] then (s.(queue := s.queue[1..]), Some(s.queue[0])) else (Return(s), None)
  }

  /** `ksem_remove_waiters_for` on this semaphore. */
  function Forgotten(s: Sem<nat>, proc: nat): Sem<nat> {
    s.(queue := Without(s.queue, proc))
  }

  // ------------------------------------------------------------------
  // References
  // ------------------------------------------------------------------

  /** A semaphore with its reference count; a name is what `SemTable` knows it by. */
  datatype KSem = KSem(name: string, sem: Sem<nat>, refcount: nat, unlinked: bool, destroying: bool)

  /** `sem_ready_to_destroy_locked`: unlinked, unreferenced, waiterless, and not already being destroyed. */
  predicate Unused(k: KSem) {
    !k.destroying && k.unlinked && k.refcount == 0 && k.sem.queue == []
  }

  /** The semaphore after the test, and whether the caller must free it. */
  function Reap(k: KSem): (KSem, bool) {
    if Unused(k) then (k.(destroying := true), true) else (k, false)
  }

  /** `ksem_close`; nothing happens at count 0. */
  function Close(k: KSem): (KSem, bool) {
    if k.refcount == 0 then (k, false) else Reap(k.(refcount := k.refcount - 1))
  }
}
