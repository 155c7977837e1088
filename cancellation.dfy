/** The per-turn one-shot cancellation flag (`CancelToken` in
    src/llm/base.py and its identical twin in src/tts/base.py). */
module Cancellation {
  import opened Errors

  class CancelToken {
    /** The underlying `threading.Event` flag. */
    var cancelled: bool

    /** A fresh token is not cancelled. */
    constructor ()
      ensures !cancelled
    {
      cancelled := false;
    }

    /** Sets the flag. The result does not depend on the old state, so
        cancelling twice is the same as cancelling once; no operation ever
        clears the flag again. */
    method Cancel()
      modifies this
      ensures cancelled
    {
      cancelled := true;
    }

    method IsCancelled() returns (b: bool)
      ensures b == cancelled
    {
      b := cancelled;
    }

    /** Raises `CancelledError` exactly when the token is cancelled. */
    method ThrowIfCancelled() returns (r: Result<()>)
      ensures r.Err? <==> cancelled
      ensures r.Err? ==> r.error == Cancelled
    {
      var c := IsCancelled();
      if c {
        r := Err(Cancelled);
      } else {
        r := Ok(());
      }
    }
  }
}
