/** `InterruptController` of both pipelines: holds at most one live
    cancellation token. */
module Interrupts {
  import opened Cancellation

  class InterruptController {
    var token: CancelToken?

    constructor ()
      ensures token == null
    {
      token := null;
    }

    /** Cancels the token handed out before (if any), then installs and
        returns a fresh, uncancelled one. */
    method NewToken() returns (t: CancelToken)
      modifies this, token
      ensures old(token) != null ==> old(token).cancelled
      ensures fresh(t) && !t.cancelled && token == t
    {
      if token != null {
        token.Cancel();
      }
      token := new CancelToken();
      t := token;
    }

    /** Cancels the current token; without one it does nothing. */
    method Cancel()
      modifies token
      ensures token == old(token)
      ensures token != null ==> token.cancelled
    {
      if token != null {
        token.Cancel();
      }
    }
  }
}
