# Window autostart placement — a Dafny model

This project models the decision logic of `main.py`, a Windows desktop
start-up script. The script waits until Microsoft Edge (`msedge.exe`) shows
two dashboards whose titles match configured shell-style patterns. It then
moves each dashboard window over the monitor its pattern names, restores it
and brings it to the foreground. Any failure ends the run.

The operating system's answers are inputs to the model:

- a window snapshot (`Windows.WindowInfo`: handle, visibility, title, owner lookup);
- clock readings in integer microseconds, each paired with the screen the next check would see (`Wait.Tick`);
- the monitor rectangles (`Monitors.Rect`).

The window-system calls the script makes are returned as a command trace
(`Placement.Command`) instead of being made.

Modules, in the order the script uses them:

- `Config`: the target process name, the 3-second timeout and the ordered pattern-to-monitor rules.
- `Glob`: `fnmatch.fnmatchcase` with `*`, `?` and literal characters, plus `title_matches_any_pattern`.
- `Windows`: `get_process_name_from_hwnd`, `enum_handler` and one enumeration pass.
- `Wait`: the inner `check` of `wait_windows` and its polling loop.
- `Monitors`: `get_monitors`.
- `Placement`: `move_window_to_monitor`, the first-match rule lookup and the placement loop of `main`.
- `Autostart`: `main` as a whole.
- `Scenarios`: the configured patterns and small concrete runs.
- `Outcomes`: `Option`, `Result` and the fatal errors.

The model follows the code as written:

- A no-wait call of `wait_windows` does not stop after its one check. The branch at main.py:81-82 does not return, so the call goes on into the polling loop. `Wait.WaitWindows` and `Wait.WaitIsDetermined` show that the probe changes nothing except the number of checks.
- The deadline is anchored at the module-level start time, main.py:18. It is not anchored at the start of each call. The wait ends as soon as the elapsed time is *at least* the timeout, because the loop continues only while it is strictly below.
- The wait returns only a *non-empty* satisfied list, because it tests the list's truthiness. As a consequence the launcher branch of `main` (main.py:102-105) can never run.
- A process lookup that fails records the name `"Desconhecido"`.
- `get_monitors` returns from inside its loop. With no monitor it returns `None`, and `len(None)` in `main` then raises. `Outcomes.NoMonitorList` models that error.
- Character classes in patterns are not modelled (see below).

## Model

| member | source | states |
|---|---|---|
| Glob.MatchesIffDenotes | main.py:62-63 | the recursive matcher accepts a title exactly when each `*` of the pattern can be replaced by a substring, each `?` by one character and every other character by itself, so that the whole title is spelled out |
| Glob.LiteralMatchesItselfOnly | main.py:24-27 | a pattern with no wildcard matches a title if and only if the title is identical to it, letter case included |
| Glob.StarBetweenLiterals | main.py:25 | literal, star, literal matches every title made of the first literal, anything, and the second literal |
| Glob.MatchEndsWithLastLiteral | main.py:63 | matching is anchored at the end: a pattern ending in an ordinary character only matches titles ending in it |
| Glob.StripLiteralPrefix | main.py:63 | a shared literal prefix of pattern and title can be removed without changing the verdict |
| Glob.AnyMatches | main.py:62-63 | `title_matches_any_pattern` holds exactly when some pattern of the list matches the title, so it is false for an empty list |
| Windows.ConfiguredTargetDistinguishable | main.py:17 | the configured target `msedge.exe` never equals the placeholder `Desconhecido` up to letter case, so failed lookups are never kept |
| Windows.ProcessOf | main.py:29-35 | a lookup that fails gives no process id and the placeholder name `Desconhecido`; a found process gives its id and its name unchanged |
| Windows.EnumHandler | main.py:53-60 | the callback appends the window's record or leaves the result unchanged; for a target unlike the placeholder, it appends exactly when the window is visible, titled and owned by a found process with the target's name up to case |
| Windows.Enumerate | main.py:53-60 | every collected record has a non-empty title, a process name equal to the target's up to case and, for a target unlike the placeholder, a process id |
| Windows.EnumerateOne | main.py:53-60 | a pass over one window yields its record when the window is wanted, and nothing otherwise |
| Windows.EnumerateAppend | main.py:68-69 | the pass over two consecutive stretches of windows yields the first stretch's records followed by the second's, so enumeration order is kept |
| Windows.EnumerateMembers | main.py:53-60 | a record is collected if and only if some window of the snapshot is wanted and yields it |
| Wait.PrefilterIsHarmless | main.py:71-72 | narrowing the titles to those matching some pattern gives the same verdict as every pattern matching some enumerated title; with at least one pattern a satisfied verdict needs a window |
| Wait.CheckVerdict | main.py:67-79 | `check` answers with the whole enumeration, titles matching no pattern included, exactly when every pattern matches some enumerated title, and `None` otherwise; with patterns configured the answer is non-empty |
| Wait.WaitWindows | main.py:65-90 | the wait stops at the first round that is out of time or finds a non-empty satisfied list; it returns that list only if it was found in time, and raises the timeout when the clock has reached the deadline; a no-wait call only adds one check |
| Wait.WaitIsDetermined | main.py:81-85 | two runs of the wait over the same clock readings and screens end in the same round with the same result, whether or not a no-wait probe ran first |
| Wait.TimeoutAtDeadline | main.py:84 | when the first reading is exactly the deadline, the wait raises the timeout without a check: the bound is inclusive |
| Wait.NothingOnScreenTimesOut | main.py:84-90 | when no enumeration ever reports a target window and patterns are configured, the wait ends in the timeout |
| Monitors.ListMonitors | main.py:92-97 | `get_monitors` as a loop whose first iteration returns: the whole reported list comes back when there is at least one monitor, and `None` when there is none |
| Monitors.GetMonitors | main.py:92-97 | `get_monitors` gives back the whole reported list when there is at least one monitor and `None` when there is none |
| Placement.MoveToMonitor | main.py:37-50 | an index past the last monitor raises; otherwise the window is moved so that it covers the monitor's rectangle exactly, then restored and focused |
| Placement.FindRule | main.py:113-117 | the result is absent exactly when no rule's pattern matches the title; otherwise it is the monitor of the first matching rule in configuration order |
| Placement.PlaceOneVerdict | main.py:114-121 | one iteration raises for a window that no rule matches; otherwise it is the move of that window onto the monitor of the first matching rule, and no error other than these two can end it |
| Placement.PlaceAll | main.py:113-121 | windows are placed in list order; the pass stops at the first window that cannot be placed and reports its error; the commands of the windows before it stay, three per window |
| Placement.PlaceAllTrace | main.py:113-117 | the `i`-th group of three commands is exactly the move of the `i`-th window onto the monitor of its first matching rule |
| Placement.TraceTouchesOnlyPlaced | main.py:118-121 | every issued command addresses, by handle, a window that was placed; since one enumeration pass lists each handle once, no window at or after a failure is touched |
| Placement.PlacementPass | main.py:106-111 | with no monitor the pass raises; with more windows than monitors it raises and issues no command; a successful pass moves every window |
| Autostart.Run | main.py:100-121 | `main` waits as `wait_windows` does, and the wait either yields a non-empty list or raises, so the launcher is never run; a timeout issues no command; otherwise placement proceeds on the waited list |
| Scenarios.DashboardPatternMatchesAnyTeam | main.py:25 | "TI * Dashboards - Grafana" matches the dashboard title for every team name |
| Scenarios.DashboardPatternIsCaseSensitive | main.py:25 | no title starting with lower-case "ti" matches the dashboard pattern |
| Scenarios.DashboardPatternIsAnchored | main.py:25 | no title whose last character is not `a` matches the dashboard pattern |
| Scenarios.NocPatternMatchesOnlyItsTitle | main.py:26 | the operations-centre pattern matches exactly its own text |
| Scenarios.ConfiguredPatternsAreDisjoint | main.py:24-27 | no title matches both configured patterns |
| Scenarios.MixedScreenEnumeration | main.py:53-60 | hidden, untitled and orphaned windows are dropped, and a process name differing only in case is kept |
| Scenarios.BothDashboardsSatisfyCheck | main.py:67-75 | with both dashboards on screen the check is satisfied and returns just those two windows |
| Scenarios.TwoDashboardsOnTwoMonitors | main.py:113-117 | the dashboard goes to monitor 1 and the operations-centre window to monitor 0, each covering its monitor |
| Scenarios.MissingMonitorStopsBeforeMoving | main.py:39-42 | with one monitor, the dashboard's rule naming monitor 1 raises before any command |
| Scenarios.UnmatchedWindowEndsPass | main.py:118-121 | a window matching no pattern raises after the earlier window was placed and before the later one is touched |

## Left out

- Win32 and psutil calls are not modelled as calls. Window enumeration, visibility, titles, process lookup, monitor enumeration and monitor info are inputs (snapshots). Moving, restoring and focusing are entries of the returned command trace.
- `subprocess.run` of the PowerShell launcher (main.py:104) and the second `wait_windows()` call are not modelled. The branch that holds them cannot be reached (see `Autostart.Run`).
- The real clock and `time.sleep(0.1)` are not modelled. Clock readings are given as integer microseconds, the resolution of `datetime`. The floating-point `total_seconds()` is compared exactly.
- Wait.WaitWindows: requires that some given clock reading reaches the deadline. This stands in for a real clock that always advances past it. The source places no such demand.
- Windows.EnumHandler: for a target name equal to `Desconhecido` up to case, the exact keep condition is not stated. The configured target is not such a name (`Windows.ConfiguredTargetDistinguishable`).
- Logging, the `DEBUG` flag and the script paths (`ROOT_DIR`, `START_SCRIPT_PATH`) are left out. They only produce output.
- Lower-casing covers ASCII letters only. Python's full Unicode `str.lower()` is not modelled.
- Bracket character classes (`[...]`, `[!...]`) in patterns are not modelled: `[` is treated as an ordinary character. The configured patterns contain none.
- Monitor indices are natural numbers. Python's negative-index wrap-around in `monitors[monitor_index]` is not modelled.
- `move_window_to_monitor` lists the monitors again on every call (main.py:38). The model uses the single list taken by `get_monitors`, assuming the monitors do not change during one run.
- Placement.MoveToMonitor: the move, restore and focus calls are assumed to succeed. A failing window-system call (for example a refused foreground switch) raises in the script after one or two of that window's commands; the model always issues all three.
- Exception messages and the process exit status are not modelled. Every `Outcomes.Fatal` stands for a non-zero exit.
