/** The monitor registry: the monitors the operating system reports, in its
    enumeration order, each with its bounding rectangle. */
module Monitors {
  import opened Outcomes

  /** A monitor's bounding rectangle as (left, top, right, bottom). */
  datatype Rect = Rect(left: int, top: int, right: int, bottom: int)

  /** `get_monitors`: the loop over the reported monitors returns from inside
      its first iteration, so the whole list comes back when there is at
      least one monitor, and the function falls off its end (returning
      `None`) when there is none. */
  function GetMonitors(reported: seq<Rect>): (r: Option<seq<Rect>>)
    ensures r.Some? <==> |reported| > 0
    ensures r.Some? ==> r.value == reported
  {
    if |reported| == 0 then None
    else
      // first iteration, index 0: its monitor is only logged, then the
      // whole list is returned
      Some(reported)
  }

  /** `get_monitors` in the shape of the script: a loop over the reported
      monitors whose first iteration logs the monitor and returns the whole
      list, and a fall-through after the loop that returns `None`. */
  method ListMonitors(reported: seq<Rect>) returns (r: Option<seq<Rect>>)
    ensures r.Some? <==> |reported| > 0
    ensures r.Some? ==> r.value == reported
    ensures r == GetMonitors(reported)
  {
    for i := 0 to |reported|
      invariant i == 0
    {
      r := Some(reported);
      return;
    }
    r := None;
  }
}
