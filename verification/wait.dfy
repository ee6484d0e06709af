/** The wait sequencer: the satisfaction check run on one enumeration pass,
    and the polling loop that repeats it until it is satisfied or the clock,
    measured from the script's start time, reaches the timeout. */
module Wait {
  import opened Outcomes
  import opened Glob
  import opened Windows
  import Config

  /** Titles of the enumerated windows that match at least one pattern. */
  function MatchedTitles(windows: seq<WindowRecord>, patterns: seq<string>): set<string>
  {
    set w | w in windows && AnyMatches(w.title, patterns) :: w.title
  }

  /** Every pattern matches at least one of the given titles. */
  predicate EveryPatternSeen(patterns: seq<string>, titles: set<string>) {
    forall p :: p in patterns ==> exists t :: t in titles && Matches(p, t)
  }

  /** Every pattern matches the title of at least one of the given windows. */
  predicate EveryPatternOnScreen(patterns: seq<string>, windows: seq<WindowRecord>) {
    forall i :: 0 <= i < |patterns| ==>
      exists k :: 0 <= k < |windows| && Matches(patterns[i], windows[k].title)
  }

  /** `check`: one enumeration pass; the pass's whole list when every pattern
      matches some title among the titles that match any pattern, `None`
      otherwise. */
  function Check(target: string, screen: seq<WindowInfo>, patterns: seq<string>): Option<seq<WindowRecord>>
  {
    var windows := Enumerate(target, screen);
    var matched := MatchedTitles(windows, patterns);
    if EveryPatternSeen(patterns, matched) then Some(windows) else None
  }

  /** The check is satisfied exactly when every pattern matches the title of
      some enumerated window: narrowing the titles to those matching some
      pattern first does not change the verdict. A satisfied check hands back
      the whole enumeration, titles that match no pattern included, and with
      at least one pattern that list is not empty. */
  lemma CheckVerdict(target: string, screen: seq<WindowInfo>, patterns: seq<string>)
    ensures Check(target, screen, patterns).Some? <==>
              EveryPatternOnScreen(patterns, Enumerate(target, screen))
    ensures Check(target, screen, patterns).Some? ==>
              Check(target, screen, patterns).value == Enumerate(target, screen)
    ensures Check(target, screen, patterns).Some? && |patterns| > 0 ==>
              |Check(target, screen, patterns).value| > 0
  {
    PrefilterIsHarmless(patterns, Enumerate(target, screen));
  }

  /** Restricting the titles to those matching some pattern keeps exactly
      the titles any pattern could have matched. */
  lemma PrefilterIsHarmless(patterns: seq<string>, windows: seq<WindowRecord>)
    ensures EveryPatternSeen(patterns, MatchedTitles(windows, patterns))
            <==> EveryPatternOnScreen(patterns, windows)
    ensures EveryPatternOnScreen(patterns, windows) && |patterns| > 0 ==> |windows| > 0
  {
    if EveryPatternOnScreen(patterns, windows) && |patterns| > 0 {
      var k :| 0 <= k < |windows| && Matches(patterns[0], windows[k].title);
    }
    var matched := MatchedTitles(windows, patterns);
    if EveryPatternSeen(patterns, matched) {
      forall i | 0 <= i < |patterns|
        ensures exists k :: 0 <= k < |windows| && Matches(patterns[i], windows[k].title)
      {
        assert patterns[i] in patterns;
        var t :| t in matched && Matches(patterns[i], t);
        var w :| w in windows && AnyMatches(w.title, patterns) && w.title == t;
        var k :| 0 <= k < |windows| && windows[k] == w;
        assert Matches(patterns[i], windows[k].title);
      }
      assert EveryPatternOnScreen(patterns, windows);
    }
    if EveryPatternOnScreen(patterns, windows) {
      forall p | p in patterns
        ensures exists t :: t in matched && Matches(p, t)
      {
        var i :| 0 <= i < |patterns| && patterns[i] == p;
        var k :| 0 <= k < |windows| && Matches(patterns[i], windows[k].title);
        assert AnyMatches(windows[k].title, patterns);
        assert windows[k] in windows;
        assert windows[k].title in matched;
      }
      assert EveryPatternSeen(patterns, matched);
    }
  }

  /** One evaluation of the loop condition: the clock reading taken then, in
      microseconds, and the windows an enumeration would report right after. */
  datatype Tick = Tick(now: int, screen: seq<WindowInfo>)

  /** The loop condition has failed: at least the timeout has elapsed since
      the start time. */
  predicate Expired(now: int, start: int) {
    now - start >= Config.TimeoutMicros
  }

  /** Python truthiness of a check's result: present and non-empty. */
  predicate Truthy(found: Option<seq<WindowRecord>>) {
    found.Some? && |found.value| > 0
  }

  /** The clock eventually reaches the deadline. */
  predicate ReachesDeadline(ticks: seq<Tick>, start: int) {
    exists i :: 0 <= i < |ticks| && Expired(ticks[i].now, start)
  }

  /** What the polling loop does with the given clock readings: it stops at
      round `rounds`, every earlier round having been in time and having found
      no truthy list; there it either returns the list found in time, or
      raises the timeout because the deadline has been reached. */
  ghost predicate WaitSpec(target: string, patterns: seq<string>, start: int, ticks: seq<Tick>,
                           r: Result<seq<WindowRecord>>, rounds: nat)
  {
    && rounds < |ticks|
    && (forall j :: 0 <= j < rounds ==>
          !Expired(ticks[j].now, start) && !Truthy(Check(target, ticks[j].screen, patterns)))
    && match r
       case Ok(windows) =>
         && !Expired(ticks[rounds].now, start)
         && Check(target, ticks[rounds].screen, patterns) == Some(windows)
         && |windows| > 0
       case Err(e) =>
         e == WaitTimeout && Expired(ticks[rounds].now, start)
  }

  /** `wait_windows`: with `noWait` it first runs one check on `probe` and
      discards the verdict; either way it then polls until a check is truthy
      (returning that list) or the deadline, anchored at `start`, is reached
      (raising the timeout). `checks` counts the enumeration passes made. */
  method WaitWindows(target: string, patterns: seq<string>, start: int,
                     noWait: bool, probe: seq<WindowInfo>, ticks: seq<Tick>)
    returns (r: Result<seq<WindowRecord>>, rounds: nat, checks: nat)
    requires ReachesDeadline(ticks, start)
    ensures WaitSpec(target, patterns, start, ticks, r, rounds)
    ensures checks == rounds + (if r.Ok? then 1 else 0) + (if noWait then 1 else 0)
  {
    checks := 0;
    if noWait {
      var ignored := Check(target, probe, patterns);
      checks := 1;
    }
    ghost var deadline :| 0 <= deadline < |ticks| && Expired(ticks[deadline].now, start);
    rounds := 0;
    while !Expired(ticks[rounds].now, start)
      invariant rounds <= deadline
      invariant forall j :: 0 <= j < rounds ==>
                  !Expired(ticks[j].now, start) && !Truthy(Check(target, ticks[j].screen, patterns))
      invariant checks == rounds + (if noWait then 1 else 0)
      decreases deadline - rounds
    {
      var windows := Check(target, ticks[rounds].screen, patterns);
      checks := checks + 1;
      if Truthy(windows) {
        r := Ok(windows.value);
        return;
      }
      rounds := rounds + 1;
    }
    r := Err(WaitTimeout);
  }

  /** The loop's outcome is determined by the clock readings and the screens
      alone: whether a no-wait probe ran first, and what it saw, changes
      nothing but the number of checks. */
  lemma WaitIsDetermined(target: string, patterns: seq<string>, start: int, ticks: seq<Tick>,
                         r1: Result<seq<WindowRecord>>, rounds1: nat,
                         r2: Result<seq<WindowRecord>>, rounds2: nat)
    requires WaitSpec(target, patterns, start, ticks, r1, rounds1)
    requires WaitSpec(target, patterns, start, ticks, r2, rounds2)
    ensures r1 == r2 && rounds1 == rounds2
  {
  }

  /** With the deadline already reached at the first reading the loop raises
      the timeout without a single check, whatever is on screen: the bound is
      inclusive because the loop continues only while strictly less time has
      elapsed. */
  lemma TimeoutAtDeadline(target: string, patterns: seq<string>, start: int, ticks: seq<Tick>,
                          r: Result<seq<WindowRecord>>, rounds: nat)
    requires WaitSpec(target, patterns, start, ticks, r, rounds)
    requires ticks[0].now == start + Config.TimeoutMicros
    ensures r == Err(WaitTimeout) && rounds == 0
  {
  }

  /** When no enumeration ever reports a window of the target process, and
      there is at least one pattern, the wait ends in the timeout. */
  lemma NothingOnScreenTimesOut(target: string, patterns: seq<string>, start: int, ticks: seq<Tick>,
                                r: Result<seq<WindowRecord>>, rounds: nat)
    requires WaitSpec(target, patterns, start, ticks, r, rounds)
    requires |patterns| > 0
    requires forall i :: 0 <= i < |ticks| ==> Enumerate(target, ticks[i].screen) == []
    ensures r == Err(WaitTimeout)
  {
    if r.Ok? {
      CheckVerdict(target, ticks[rounds].screen, patterns);
    }
  }
}
