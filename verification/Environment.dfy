/** What is not pgcopydb's own: statements, system calls, signals. */
module Environment {

  /** Counts what went wrong, so that a contract can say what follows when
      nothing did. */
  class World {
    ghost var failures: nat

    constructor ()
      ensures failures == 0
    {
      failures := 0;
    }

    /** Any one of them: it works or it does not. */
    method Try() returns (ok: bool)
      modifies this
      ensures failures == old(failures) + (if ok then 0 else 1)
    {
      ok := *;
      if !ok {
        failures := failures + 1;
      }
    }
  }
}
