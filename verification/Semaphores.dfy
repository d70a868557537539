/** The counting semaphores of thread.c, as the clients that never alert each other see them.

    A signal hands the token straight to the first waiter when there is one; otherwise it is
    added to the count.  Both operations run inside the monitor, so each is one atomic step. */
module Semaphores {
  import opened Wrappers

  type Tid = nat

  datatype Sem = Sem(count: int, queue: seq<Tid>)

  /** Sem_wait up to its switch: the flag says whether the caller passes at once. */
  function Wait(s: Sem, t: Tid): (Sem, bool)
  {
    if s.count <= 0 then (s.(queue := s.queue + [t]), false) else (s.(count := s.count - 1), true)
  }

  /** Sem_signal: the thread it makes runnable, if any. */
  function Signal(s: Sem): (Sem, Option<Tid>)
  {
    if s.count == 0 && s.queue != [] then (s.(queue := s.queue[1..]), Some(s.queue[0]))
    else (s.(count := s.count + 1), None)
  }

  ghost predicate NoDup<T>(q: seq<T>)
  {
    forall i, j :: 0 <= i < j < |q| ==> q[i] != q[j]
  }
}
