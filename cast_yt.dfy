/**
  The run decision of the script's `main`: extract the id, resolve the
  device (exit 2 when there is none), poll readiness (only a warning when it
  fails), then try the YouTube controller once when an id was extracted and
  exit 0 when it succeeds. Otherwise `main` returns normally; no other
  playback is attempted.
 */
module CastYt {
  import opened Wrappers
  import opened VideoId
  import opened Devices
  import opened Readiness
  import opened Controller

  /** The points `main` passes through; `Exited` is `sys.exit`, `Returned` a normal return. */
  datatype Phase =
    | Start
    | IdExtracted
    | DeviceResolved
    | ReadinessChecked
    | ControllerAttempted
    | Exited(status: nat)
    | Returned

  predicate IsTerminal(p: Phase) {
    p.Exited? || p.Returned?
  }

  /** The control-flow edges of `main`. */
  predicate Transition(p: Phase, q: Phase) {
    match p
    case Start => q == IdExtracted
    case IdExtracted => q == DeviceResolved || q == Exited(2)
    case DeviceResolved => q == ReadinessChecked
    case ReadinessChecked => q == ControllerAttempted || q == Returned
    case ControllerAttempted => q == Exited(0) || q == Returned
    case Exited(_) => false
    case Returned => false
  }

  /** A complete run: from `Start`, along the edges, to a terminal phase. */
  predicate IsRun(trace: seq<Phase>) {
    0 < |trace| && trace[0] == Start && IsTerminal(trace[|trace| - 1]) &&
    forall k :: 0 <= k < |trace| - 1 ==> Transition(trace[k], trace[k + 1])
  }

  /** The process exit status: a normal return from `main` ends the script with 0. */
  function ExitStatus(p: Phase): nat
    requires IsTerminal(p)
  {
    match p
    case Exited(status) => status
    case Returned => 0
  }

  /** The four complete runs of `main`. */
  const NotFoundRun: seq<Phase> := [Start, IdExtracted, Exited(2)]
  const NoAttemptRun: seq<Phase> := [Start, IdExtracted, DeviceResolved, ReadinessChecked, Returned]
  const SucceededRun: seq<Phase> :=
    [Start, IdExtracted, DeviceResolved, ReadinessChecked, ControllerAttempted, Exited(0)]
  const FailedAttemptRun: seq<Phase> :=
    [Start, IdExtracted, DeviceResolved, ReadinessChecked, ControllerAttempted, Returned]

  /** Nothing follows a terminal phase. */
  lemma TerminalIsLast(trace: seq<Phase>, k: nat)
    requires IsRun(trace)
    requires k < |trace| && IsTerminal(trace[k])
    ensures k == |trace| - 1
  {
    assert k < |trace| - 1 ==> Transition(trace[k], trace[k + 1]);
  }

  /** The machine has exactly four complete runs. */
  lemma {:induction false} RunShapes(trace: seq<Phase>)
    requires IsRun(trace)
    ensures trace == NotFoundRun || trace == NoAttemptRun ||
            trace == SucceededRun || trace == FailedAttemptRun
  {
    var n := |trace|;
    assert n > 1 && Transition(trace[0], trace[1]);
    assert n > 2 && Transition(trace[1], trace[2]);
    if trace[2] == Exited(2) {
      TerminalIsLast(trace, 2);
    } else {
      assert n > 3 && Transition(trace[2], trace[3]);
      assert n > 4 && Transition(trace[3], trace[4]);
      if trace[4] == Returned {
        TerminalIsLast(trace, 4);
      } else {
        assert n > 5 && Transition(trace[4], trace[5]);
        TerminalIsLast(trace, 5);
      }
    }
  }

  /**
    What every run guarantees: status 2 exactly when no device was resolved,
    at most one controller attempt, and `sys.exit(0)` only right after one.
   */
  lemma RunGuarantees(trace: seq<Phase>)
    requires IsRun(trace)
    ensures ExitStatus(trace[|trace| - 1]) == 2 <==> DeviceResolved !in trace
    ensures ExitStatus(trace[|trace| - 1]) == 0 || ExitStatus(trace[|trace| - 1]) == 2
    ensures forall i, j :: 0 <= i < j < |trace| && trace[i] == ControllerAttempted ==>
      trace[j] != ControllerAttempted
    ensures trace[|trace| - 1] == Exited(0) ==>
      1 < |trace| && trace[|trace| - 2] == ControllerAttempted
    ensures ControllerAttempted in trace ==> DeviceResolved in trace
  {
    RunShapes(trace);
  }

  /** The four runs are runs of the machine, and they differ where `main` branches. */
  lemma FourRunsValid()
    ensures IsRun(NotFoundRun) && IsRun(NoAttemptRun) && IsRun(SucceededRun) && IsRun(FailedAttemptRun)
    ensures ControllerAttempted !in NotFoundRun && ControllerAttempted !in NoAttemptRun
    ensures ControllerAttempted in SucceededRun && ControllerAttempted in FailedAttemptRun
  {
    assert NotFoundRun[2] == Exited(2);
    assert NoAttemptRun[4] == Returned;
    assert SucceededRun[4] == ControllerAttempted;
    assert FailedAttemptRun[4] == ControllerAttempted;
  }

  /** Everything one run of `main` decided. */
  datatype Run = Run(
    trace: seq<Phase>,
    videoId: Option<string>,
    device: Option<nat>,
    ready: Option<bool>,
    attempt: Option<Attempt>)

  /**
    `main` after argument parsing: `devices` is what discovery found,
    `probes` what the readiness loop samples before its deadline, and
    `raises` which library call of the controller attempt raises, if any.
   */
  method MainFlow(deviceName: string, url: string, devices: seq<Device>,
                  probes: seq<Probe>, raises: Option<Stage>) returns (run: Run)
    ensures IsRun(run.trace)
    ensures run.videoId == ExtractYoutubeId(url)
    ensures run.device == Resolve(devices, deviceName)
    ensures run.trace[|run.trace| - 1] == Exited(2) <==> Resolve(devices, deviceName).None?
    ensures run.ready.Some? <==> Resolve(devices, deviceName).Some?
    ensures run.ready.Some? ==>
      (run.ready.value <==> exists k :: 0 <= k < |probes| && IsReady(probes[k]))
    ensures run.attempt.Some? <==> ControllerAttempted in run.trace
    ensures run.attempt.Some? <==>
      Resolve(devices, deviceName).Some? && ExtractYoutubeId(url).Some?
    ensures run.attempt.Some? ==>
      run.attempt.value.videoId == ExtractYoutubeId(url).value &&
      (run.attempt.value.session.Some? ==>
        run.attempt.value.session.value.screenId ==
          ScreenId(devices[Resolve(devices, deviceName).value].name))
    ensures run.trace[|run.trace| - 1] == Exited(0) <==>
      run.attempt.Some? && run.attempt.value.ok
    ensures run.trace[|run.trace| - 1] == Exited(0) <==>
      Resolve(devices, deviceName).Some? && ExtractYoutubeId(url).Some? && raises.None?
  {
    FourRunsValid();
    var videoId := ExtractYoutubeId(url);
    var found := FindCastByName(devices, deviceName);
    if found.None? {
      return Run(NotFoundRun, videoId, None, None, None);
    }
    ResolveFound(devices, deviceName);
    var cast := devices[found.value];
    var ready, _ := WaitForCastReady(probes);
    if videoId.Some? {
      var attempt := PlayWithYoutubeController(cast, videoId.value, raises);
      if attempt.ok {
        return Run(SucceededRun, videoId, found, Some(ready), Some(attempt));
      }
      return Run(FailedAttemptRun, videoId, found, Some(ready), Some(attempt));
    }
    return Run(NoAttemptRun, videoId, found, Some(ready), None);
  }
}
