/** A mutex together with one condition variable, as the pthread calls of the labs
    use them.  `waiting` holds the threads asleep inside pthread_cond_wait; a thread
    that has been taken out of it still has to get the mutex back. */
module Monitors {

  datatype Option<+T> = None | Some(value: T)

  datatype Monitor = Monitor(owner: Option<nat>, waiting: set<nat>) {

    predicate Free() { owner.None? }

    function Lock(t: nat): Monitor
      requires Free()
    {
      this.(owner := Some(t))
    }

    function Unlock(): Monitor { this.(owner := None) }

    /** pthread_cond_wait: release the mutex and fall asleep in one step. */
    function Wait(t: nat): Monitor { Monitor(None, waiting + {t}) }

    /** pthread_cond_signal takes one sleeper out when there is one; which one is
        the choice `w` of the scheduler. */
    predicate CanSignal(w: nat) { waiting == {} || w in waiting }

    function Signal(w: nat): Monitor { this.(waiting := waiting - {w}) }

    function Broadcast(): Monitor { this.(waiting := {}) }
  }

  const FRESH := Monitor(None, {})
}
