/** Optional values, results and the fatal conditions that end a run of the
    window placement script. */
module Outcomes {

  /** Python's `None` versus a present value. */
  datatype Option<+T> = None | Some(value: T)

  /** A value, or the exception that was raised instead. */
  datatype Result<+T> = Ok(value: T) | Err(error: Fatal)

  /** Every exception that escapes `main` and ends the process with a
      non-zero status. */
  datatype Fatal =
    | WaitTimeout                                  // TimeoutError from wait_windows
    | NoMonitorList                                // len(None): get_monitors found no monitor
    | TooManyWindows(windows: nat, monitors: nat)  // more windows than monitors
    | UnmatchedWindow(title: string)               // a title no configured pattern matches
    | MonitorMissing(index: nat)                   // the mapped monitor index does not exist
}
