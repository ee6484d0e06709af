/** The placement engine: each enumerated window goes to the monitor that the
    first matching title pattern names, by one move, one restore and one
    focus command. */
module Placement {
  import opened Outcomes
  import opened Glob
  import opened Windows
  import opened Monitors
  import opened Config

  /** The window-system calls the script issues, recorded instead of made. */
  datatype Command =
    | MoveWindow(hwnd: nat, x: int, y: int, width: int, height: int)  // with repaint
    | RestoreWindow(hwnd: nat)                                         // ShowWindow with SW_RESTORE (9)
    | FocusWindow(hwnd: nat)                                           // SetForegroundWindow

  /** A move command places its window exactly over a monitor's rectangle. */
  predicate Covers(c: Command, m: Rect) {
    && c.MoveWindow?
    && c.x == m.left
    && c.y == m.top
    && c.x + c.width == m.right
    && c.y + c.height == m.bottom
  }

  /** `move_window_to_monitor`: raises when the index names no monitor;
      otherwise moves the window over the monitor's rectangle, restores it
      and brings it to the foreground. */
  function MoveToMonitor(hwnd: nat, index: nat, monitors: seq<Rect>): (r: Result<seq<Command>>)
    ensures r.Err? <==> index >= |monitors|
    ensures r.Err? ==> r.error == MonitorMissing(index)
    ensures r.Ok? ==>
              && |r.value| == 3
              && r.value[0].hwnd == hwnd
              && Covers(r.value[0], monitors[index])
              && r.value[1] == RestoreWindow(hwnd)
              && r.value[2] == FocusWindow(hwnd)
  {
    if index >= |monitors| then
      Err(MonitorMissing(index))
    else
      var m := monitors[index];
      var width, height := m.right - m.left, m.bottom - m.top;
      Ok([MoveWindow(hwnd, m.left, m.top, width, height), RestoreWindow(hwnd), FocusWindow(hwnd)])
  }

  /** Rule `i` is the first rule, in configuration order, whose pattern
      matches the title. */
  predicate FirstMatch(title: string, rules: seq<Rule>, i: nat) {
    && i < |rules|
    && Matches(rules[i].pattern, title)
    && forall j :: 0 <= j < i ==> !Matches(rules[j].pattern, title)
  }

  /** The inner loop of `main`: the monitor index of the first rule whose
      pattern matches the title, or `None` when no rule matches. */
  function FindRule(title: string, rules: seq<Rule>): (r: Option<nat>)
    ensures r.None? <==> forall i :: 0 <= i < |rules| ==> !Matches(rules[i].pattern, title)
    ensures r.Some? ==> exists i: nat :: FirstMatch(title, rules, i) && rules[i].monitor == r.value
  {
    if |rules| == 0 then None
    else if Matches(rules[0].pattern, title) then
      assert FirstMatch(title, rules, 0);
      Some(rules[0].monitor)
    else
      var r := FindRule(title, rules[1..]);
      assert r.Some? ==> exists i: nat :: FirstMatch(title, rules[1..], i) && rules[1..][i].monitor == r.value;
      FirstMatchShift(title, rules);
      r
  }

  /** Past a first rule that does not match, first matches shift by one. */
  lemma FirstMatchShift(title: string, rules: seq<Rule>)
    requires |rules| > 0 && !Matches(rules[0].pattern, title)
    ensures forall i: nat :: FirstMatch(title, rules[1..], i) ==> FirstMatch(title, rules, i + 1)
  {
    forall i: nat | FirstMatch(title, rules[1..], i)
      ensures FirstMatch(title, rules, i + 1)
    {
      forall j | 0 <= j < i + 1
        ensures !Matches(rules[j].pattern, title)
      {
        if j > 0 {
          assert rules[j] == rules[1..][j - 1];
        }
      }
    }
  }

  /** At most one rule is the first to match a title. */
  lemma FirstMatchUnique(title: string, rules: seq<Rule>, i: nat, j: nat)
    requires FirstMatch(title, rules, i) && FirstMatch(title, rules, j)
    ensures i == j
  {
  }

  /** One iteration of the outer loop of `main`: the commands for one window,
      or the exception that ends the pass. */
  function PlaceOne(w: WindowRecord, rules: seq<Rule>, monitors: seq<Rect>): Result<seq<Command>>
  {
    match FindRule(w.title, rules)
    case None => Err(UnmatchedWindow(w.title))
    case Some(index) => MoveToMonitor(w.hwnd, index, monitors)
  }

  /** A window no rule matches raises; otherwise the window is moved onto the
      monitor of the first matching rule, which raises in turn when that
      monitor does not exist. No other exception ends an iteration. */
  lemma PlaceOneVerdict(w: WindowRecord, rules: seq<Rule>, monitors: seq<Rect>)
    ensures (forall i :: 0 <= i < |rules| ==> !Matches(rules[i].pattern, w.title)) ==>
              PlaceOne(w, rules, monitors) == Err(UnmatchedWindow(w.title))
    ensures forall i: nat :: FirstMatch(w.title, rules, i) ==>
              PlaceOne(w, rules, monitors) == MoveToMonitor(w.hwnd, rules[i].monitor, monitors)
    ensures PlaceOne(w, rules, monitors).Err? ==>
              || PlaceOne(w, rules, monitors).error == UnmatchedWindow(w.title)
              || PlaceOne(w, rules, monitors).error.MonitorMissing?
  {
    forall i: nat | FirstMatch(w.title, rules, i)
      ensures FindRule(w.title, rules) == Some(rules[i].monitor)
    {
      var k: nat :| FirstMatch(w.title, rules, k) && rules[k].monitor == FindRule(w.title, rules).value;
      FirstMatchUnique(w.title, rules, i, k);
    }
  }

  /** The outcome of a placement pass: the commands issued, how many windows
      they placed, and the exception that ended the pass early, if any. */
  datatype Pass = Pass(trace: seq<Command>, placed: nat, failure: Option<Fatal>)

  /** The outer loop of `main`: windows are placed in list order, and the
      first window that cannot be placed ends the pass, the commands of the
      windows before it staying issued. */
  function PlaceAll(windows: seq<WindowRecord>, rules: seq<Rule>, monitors: seq<Rect>): (o: Pass)
    ensures o.placed <= |windows|
    ensures |o.trace| == 3 * o.placed
    ensures forall j :: 0 <= j < o.placed ==> PlaceOne(windows[j], rules, monitors).Ok?
    ensures o.failure.None? <==> o.placed == |windows|
    ensures o.failure.Some? ==> PlaceOne(windows[o.placed], rules, monitors) == Err(o.failure.value)
  {
    if |windows| == 0 then
      Pass([], 0, None)
    else
      match PlaceOne(windows[0], rules, monitors)
      case Err(e) => Pass([], 0, Some(e))
      case Ok(commands) =>
        var rest := PlaceAll(windows[1..], rules, monitors);
        Pass(commands + rest.trace, rest.placed + 1, rest.failure)
  }

  lemma SliceAfterPrefix(a: seq<Command>, b: seq<Command>, lo: nat, hi: nat)
    requires |a| <= lo <= hi <= |a| + |b|
    ensures (a + b)[lo .. hi] == b[lo - |a| .. hi - |a|]
  {
  }

  /** The `i`-th group of three commands of a pass is exactly the move of the
      `i`-th window onto the monitor its first matching rule names. */
  lemma {:induction false} PlaceAllTrace(windows: seq<WindowRecord>, rules: seq<Rule>, monitors: seq<Rect>, i: nat)
    requires i < PlaceAll(windows, rules, monitors).placed
    ensures FindRule(windows[i].title, rules).Some?
    ensures FindRule(windows[i].title, rules).value < |monitors|
    ensures PlaceAll(windows, rules, monitors).trace[3 * i .. 3 * i + 3] ==
              MoveToMonitor(windows[i].hwnd, FindRule(windows[i].title, rules).value, monitors).value
    decreases i
  {
    var o := PlaceAll(windows, rules, monitors);
    var first := PlaceOne(windows[0], rules, monitors);
    var rest := PlaceAll(windows[1..], rules, monitors);
    assert first.Ok? && o.trace == first.value + rest.trace;
    if i == 0 {
      assert o.trace[0 .. 3] == first.value;
    } else {
      var lo := 3 * (i - 1);
      PlaceAllTrace(windows[1..], rules, monitors, i - 1);
      assert windows[1..][i - 1] == windows[i];
      SliceAfterPrefix(first.value, rest.trace, lo + 3, lo + 6);
      assert 3 * i == lo + 3;
    }
  }

  /** Every command of a pass addresses, by handle, one of the windows it
      placed. Because one enumeration pass lists each window handle once, a
      pass that stopped at a window never touches that window or any later
      one. */
  lemma TraceTouchesOnlyPlaced(windows: seq<WindowRecord>, rules: seq<Rule>, monitors: seq<Rect>, k: nat)
    requires k < |PlaceAll(windows, rules, monitors).trace|
    ensures exists j :: 0 <= j < PlaceAll(windows, rules, monitors).placed &&
                        PlaceAll(windows, rules, monitors).trace[k].hwnd == windows[j].hwnd
  {
    var o := PlaceAll(windows, rules, monitors);
    var j := k / 3;
    assert j < o.placed;
    PlaceAllTrace(windows, rules, monitors, j);
    var group := o.trace[3 * j .. 3 * j + 3];
    var moved := MoveToMonitor(windows[j].hwnd, FindRule(windows[j].title, rules).value, monitors);
    assert group == moved.value;
    assert o.trace[k] == group[k - 3 * j];
    assert o.trace[k].hwnd == windows[j].hwnd;
  }

  /** The body of `main` after the wait: list the monitors, refuse more
      windows than monitors, then place every window. With no monitor the
      count comparison itself fails, as `len(None)` raises. */
  function PlacementPass(windows: seq<WindowRecord>, reported: seq<Rect>, rules: seq<Rule>): (o: Pass)
    ensures |reported| == 0 ==> o == Pass([], 0, Some(NoMonitorList))
    ensures 0 < |reported| < |windows| ==> o == Pass([], 0, Some(TooManyWindows(|windows|, |reported|)))
    ensures o.failure.None? ==> |windows| <= |reported| && |o.trace| == 3 * |windows|
    ensures |o.trace| > 0 ==> 0 < |windows| <= |reported|
  {
    match GetMonitors(reported)
    case None => Pass([], 0, Some(NoMonitorList))
    case Some(monitors) =>
      if |windows| > |monitors| then
        Pass([], 0, Some(TooManyWindows(|windows|, |monitors|)))
      else
        PlaceAll(windows, rules, monitors)
  }
}
