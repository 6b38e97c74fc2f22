/**
  The polling loop of `wait_for_cast_ready`. The wall clock is not modelled:
  the input is the sequence of probes the loop takes before its deadline, one
  per 200 ms interval, and the loop stops at the first ready one.
 */
module Readiness {
  import opened Wrappers

  /**
    One status probe: either reading the cast's attributes raised, or it saw
    the socket client (`None` when the cast has none, else its `is_connected`
    flag) and whether a status object is present.
   */
  datatype Probe = Raised | Sampled(socketConnected: Option<bool>, statusPresent: bool)

  /**
    A probe reports ready when the socket client is connected or, with no
    socket client, when a status object is present. A probe that raised is
    not ready.
   */
  predicate IsReady(p: Probe) {
    match p
    case Raised => false
    case Sampled(socket, status) =>
      match socket
      case None => status
      case Some(connected) => connected
  }

  /**
    `wait_for_cast_ready`: true exactly when some probe taken before the
    deadline is ready; `polls` is how many probes were taken, the last of them
    the first ready one.
   */
  method WaitForCastReady(probes: seq<Probe>) returns (ready: bool, polls: nat)
    ensures ready <==> exists k :: 0 <= k < |probes| && IsReady(probes[k])
    ensures polls <= |probes|
    ensures ready ==> 0 < polls && IsReady(probes[polls - 1])
    ensures ready ==> forall k :: 0 <= k < polls - 1 ==> !IsReady(probes[k])
    ensures !ready ==> polls == |probes|
  {
    polls := 0;
    while polls < |probes|
      invariant polls <= |probes|
      invariant forall k :: 0 <= k < polls ==> !IsReady(probes[k])
    {
      var probe := probes[polls];
      polls := polls + 1;
      var ok := match probe
        case Raised => false
        case Sampled(socket, status) => if socket.None? then status else socket.value;
      if ok {
        return true, polls;
      }
    }
    return false, polls;
  }
}
