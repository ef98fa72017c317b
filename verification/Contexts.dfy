/** A cancellable context, as far as code can tell that asks it now and then. */
module Contexts {

  // Done after a number of checks, and from then on.
  class Context {
    var checks: nat

    constructor (checks: nat)
      ensures this.checks == checks
    {
      this.checks := checks;
    }

    method Done() returns (done: bool)
      modifies this
      ensures done == (old(checks) == 0)
      ensures checks == if done then 0 else old(checks) - 1
    {
      done := checks == 0;
      checks := if done then 0 else checks - 1;
    }
  }
}
