/**
 * The transition check shared by both task kinds: a status-flow table maps a
 * status to the list of statuses that may follow it, and a status missing
 * from the table has no successors (a Go map lookup of a missing key yields
 * a nil slice).
 */
module StateMachine {

  type Flow = map<string, seq<string>>

  /** The successors listed for `status`, or none when it is not a key. */
  function Allowed(flow: Flow, status: string): seq<string> {
    if status in flow then flow[status] else []
  }

  /** A move from `current` to `requested` is legal exactly when the table lists it. */
  predicate CanTransition(flow: Flow, current: string, requested: string) {
    requested in Allowed(flow, current)
  }

  /**
   * The scan of ChangeStatus: walk the allowed list and stop at the first
   * entry equal to the requested status.
   */
  method ValidateTransition(flow: Flow, current: string, requested: string) returns (allow: bool)
    ensures allow <==> CanTransition(flow, current, requested)
  {
    var allowedStatus := Allowed(flow, current);
    allow := false;
    var i := 0;
    while i < |allowedStatus|
      invariant 0 <= i <= |allowedStatus|
      invariant !allow
      invariant requested !in allowedStatus[..i]
    {
      if allowedStatus[i] == requested {
        allow := true;
        break;
      }
      i := i + 1;
    }
    assert !allow ==> allowedStatus[..i] == allowedStatus;
  }

  /** A status that is not a key of the table can move nowhere. */
  lemma UnknownStatusIsStuck(flow: Flow, current: string, requested: string)
    requires current !in flow
    ensures !CanTransition(flow, current, requested)
  {
  }
}
