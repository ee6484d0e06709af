/** The script's entry point: the wait for the expected windows, then the
    placement pass, with the configured target process and rules. */
module Autostart {
  import opened Outcomes
  import opened Windows
  import opened Wait
  import opened Monitors
  import opened Placement
  import opened Config

  /** `main`. `start` is the clock reading taken when the script was loaded,
      which anchors the deadline; `probe` is what the no-wait check sees;
      `ticks` are the clock readings and screens of the polling loop that
      follows it; `reported` are the monitors the operating system lists.
      The wait either returns a non-empty list or raises, so the branch that
      would run the browser launcher and wait again is never taken. */
  method Run(start: int, probe: seq<WindowInfo>, ticks: seq<Tick>, reported: seq<Rect>)
    returns (waited: Result<seq<WindowRecord>>, rounds: nat, outcome: Pass)
    requires ReachesDeadline(ticks, start)
    ensures WaitSpec(TargetProcess, Patterns(Rules), start, ticks, waited, rounds)
    ensures waited.Ok? ==> |waited.value| > 0
    ensures waited.Err? ==> outcome == Pass([], 0, Some(WaitTimeout))
    ensures waited.Ok? ==> outcome == PlacementPass(waited.value, reported, Rules)
    ensures outcome.failure.None? ==>
              waited.Ok? && |waited.value| <= |reported| && |outcome.trace| == 3 * |waited.value|
  {
    var checks;
    waited, rounds, checks := WaitWindows(TargetProcess, Patterns(Rules), start, true, probe, ticks);
    match waited
    case Err(e) =>
      outcome := Pass([], 0, Some(e));
    case Ok(windows) =>
      // `if not windows` at this point cannot hold: no launcher run, no second wait
      assert |windows| > 0;
      outcome := PlacementPass(windows, reported, Rules);
  }
}
