/** The configured rules and concrete runs of the sequencer on small,
    hand-built snapshots. */
module Scenarios {
  import opened Outcomes
  import opened Glob
  import opened Windows
  import opened Wait
  import opened Monitors
  import opened Placement
  import opened Config

  /** The title of a team's dashboard. */
  function DashboardTitle(team: string): string {
    "TI " + team + " Dashboards - Grafana"
  }

  const NocTitle: string := "NOC SCC: Dashboard"

  /** The dashboard pattern's star stands for any team name. */
  lemma DashboardPatternMatchesAnyTeam(team: string)
    ensures Matches(Rules[0].pattern, DashboardTitle(team))
  {
    StarBetweenLiterals("TI ", team, " Dashboards - Grafana");
    assert "TI " + "*" + " Dashboards - Grafana" == Rules[0].pattern;
  }

  /** Letter case matters: a title starting with lower-case "ti" never
      matches the dashboard pattern. */
  lemma DashboardPatternIsCaseSensitive(rest: string)
    ensures !Matches(Rules[0].pattern, "ti" + rest)
  {
    assert ("ti" + rest)[0] == 't';
  }

  /** The whole title must match: a title whose last character is not the
      pattern's last character never matches, whatever comes before. */
  lemma DashboardPatternIsAnchored(title: string)
    requires |title| > 0 && title[|title| - 1] != 'a'
    ensures !Matches(Rules[0].pattern, title)
  {
    if Matches(Rules[0].pattern, title) {
      assert Rules[0].pattern == "TI * Dashboards - Grafan" + ['a'];
      MatchEndsWithLastLiteral("TI * Dashboards - Grafan", 'a', title);
    }
  }

  /** The operations-centre pattern is literal, so it matches its own text
      and nothing else. */
  lemma NocPatternMatchesOnlyItsTitle(title: string)
    ensures Matches(Rules[1].pattern, title) <==> title == NocTitle
  {
    LiteralMatchesItselfOnly(Rules[1].pattern, title);
  }

  /** No title matches both configured patterns, so the order of the rules
      never decides a placement. */
  lemma ConfiguredPatternsAreDisjoint(title: string)
    ensures !(Matches(Rules[0].pattern, title) && Matches(Rules[1].pattern, title))
  {
  }

  lemma DashboardGoesToMonitorOne(team: string)
    ensures FindRule(DashboardTitle(team), Rules) == Some(1)
  {
    DashboardPatternMatchesAnyTeam(team);
  }

  lemma NocGoesToMonitorZero()
    ensures FindRule(NocTitle, Rules) == Some(0)
  {
    NocPatternMatchesOnlyItsTitle(NocTitle);
  }

  /** A snapshot with both dashboards open among windows the enumerator
      drops: a hidden one, an untitled one and one whose owner is gone. The
      operations-centre window's process name differs from the target's only
      in letter case. */
  function MixedScreen(team: string): seq<WindowInfo> {
    [ WindowInfo(1, true, DashboardTitle(team), Resolved(100, "msedge.exe")),
      WindowInfo(7, false, "Hidden", Resolved(100, "msedge.exe")),
      WindowInfo(8, true, "", Resolved(100, "msedge.exe")),
      WindowInfo(9, true, "Gone", LookupFailed),
      WindowInfo(2, true, NocTitle, Resolved(100, "MSEdge.exe")) ]
  }

  /** The two browser windows the mixed snapshot yields, in enumeration order. */
  function MixedKept(team: string): seq<WindowRecord> {
    [ WindowRecord(1, Some(100), "msedge.exe", DashboardTitle(team)),
      WindowRecord(2, Some(100), "MSEdge.exe", NocTitle) ]
  }

  /** The enumerator keeps exactly the two dashboards of the mixed snapshot. */
  lemma MixedScreenEnumeration(team: string)
    ensures Enumerate(TargetProcess, MixedScreen(team)) == MixedKept(team)
  {
    var screen := MixedScreen(team);
    var a, b, c, d, e := screen[0], screen[1], screen[2], screen[3], screen[4];
    ConfiguredTargetDistinguishable();
    assert Lower("MSEdge.exe") == Lower(TargetProcess);
    EnumerateOne(TargetProcess, a);
    EnumerateOne(TargetProcess, b);
    EnumerateOne(TargetProcess, c);
    EnumerateOne(TargetProcess, d);
    EnumerateOne(TargetProcess, e);
    EnumerateAppend(TargetProcess, [a], [b]);
    EnumerateAppend(TargetProcess, [a, b], [c]);
    EnumerateAppend(TargetProcess, [a, b, c], [d]);
    EnumerateAppend(TargetProcess, [a, b, c, d], [e]);
    assert [a] + [b] == [a, b];
    assert [a, b] + [c] == [a, b, c];
    assert [a, b, c] + [d] == [a, b, c, d];
    assert [a, b, c, d] + [e] == screen;
  }

  /** Each configured pattern matches one of the two kept titles. */
  lemma MixedKeptCoversPatterns(team: string)
    ensures EveryPatternOnScreen(Patterns(Rules), MixedKept(team))
  {
    DashboardPatternMatchesAnyTeam(team);
    NocPatternMatchesOnlyItsTitle(NocTitle);
    PairCoversPair(Patterns(Rules), MixedKept(team));
  }

  /** Two patterns are covered by two windows when each matches its own. */
  lemma PairCoversPair(patterns: seq<string>, windows: seq<WindowRecord>)
    requires |patterns| == 2 && |windows| == 2
    requires Matches(patterns[0], windows[0].title) && Matches(patterns[1], windows[1].title)
    ensures EveryPatternOnScreen(patterns, windows)
  {
    forall i | 0 <= i < |patterns|
      ensures exists k :: 0 <= k < |windows| && Matches(patterns[i], windows[k].title)
    {
      assert Matches(patterns[i], windows[i].title);
    }
  }

  /** With both dashboards on screen the check is satisfied and hands back
      just the two browser windows. */
  lemma BothDashboardsSatisfyCheck(team: string)
    ensures Check(TargetProcess, MixedScreen(team), Patterns(Rules)) == Some(MixedKept(team))
  {
    MixedScreenEnumeration(team);
    MixedKeptCoversPatterns(team);
    CheckVerdict(TargetProcess, MixedScreen(team), Patterns(Rules));
  }

  /** Two dashboards and two monitors: each window covers exactly the monitor
      its rule names, and the pass succeeds. */
  lemma TwoDashboardsOnTwoMonitors(team: string, m0: Rect, m1: Rect)
    ensures PlacementPass([ WindowRecord(1, Some(100), "msedge.exe", DashboardTitle(team)),
                            WindowRecord(2, Some(100), "msedge.exe", NocTitle) ],
                          [m0, m1], Rules) ==
              Pass([ MoveWindow(1, m1.left, m1.top, m1.right - m1.left, m1.bottom - m1.top),
                     RestoreWindow(1), FocusWindow(1),
                     MoveWindow(2, m0.left, m0.top, m0.right - m0.left, m0.bottom - m0.top),
                     RestoreWindow(2), FocusWindow(2) ],
                   2, None)
  {
    TwoDashboardsPlaced(team, m0, m1);
    TwoDashboardsPassed(team, m0, m1);
    TwoMovesTrace(m0, m1);
  }

  lemma TwoMovesTrace(m0: Rect, m1: Rect)
    ensures MoveToMonitor(1, 1, [m0, m1]).value + MoveToMonitor(2, 0, [m0, m1]).value ==
              [ MoveWindow(1, m1.left, m1.top, m1.right - m1.left, m1.bottom - m1.top),
                RestoreWindow(1), FocusWindow(1),
                MoveWindow(2, m0.left, m0.top, m0.right - m0.left, m0.bottom - m0.top),
                RestoreWindow(2), FocusWindow(2) ]
  {
  }

  lemma TwoDashboardsPlaced(team: string, m0: Rect, m1: Rect)
    ensures PlaceAll([ WindowRecord(1, Some(100), "msedge.exe", DashboardTitle(team)),
                       WindowRecord(2, Some(100), "msedge.exe", NocTitle) ], Rules, [m0, m1])
            == Pass(MoveToMonitor(1, 1, [m0, m1]).value + MoveToMonitor(2, 0, [m0, m1]).value, 2, None)
  {
    var windows := [ WindowRecord(1, Some(100), "msedge.exe", DashboardTitle(team)),
                     WindowRecord(2, Some(100), "msedge.exe", NocTitle) ];
    DashboardGoesToMonitorOne(team);
    NocGoesToMonitorZero();
    PlaceTwo(windows[0], windows[1], Rules, [m0, m1],
             MoveToMonitor(1, 1, [m0, m1]).value, MoveToMonitor(2, 0, [m0, m1]).value);
  }

  lemma TwoDashboardsPassed(team: string, m0: Rect, m1: Rect)
    ensures PlacementPass([ WindowRecord(1, Some(100), "msedge.exe", DashboardTitle(team)),
                            WindowRecord(2, Some(100), "msedge.exe", NocTitle) ], [m0, m1], Rules)
            == PlaceAll([ WindowRecord(1, Some(100), "msedge.exe", DashboardTitle(team)),
                          WindowRecord(2, Some(100), "msedge.exe", NocTitle) ], Rules, [m0, m1])
  {
  }

  /** Two windows that each place successfully are placed one after the
      other. */
  lemma PlaceTwo(a: WindowRecord, b: WindowRecord, rules: seq<Rule>, monitors: seq<Rect>,
                 first: seq<Command>, second: seq<Command>)
    requires PlaceOne(a, rules, monitors) == Ok(first)
    requires PlaceOne(b, rules, monitors) == Ok(second)
    ensures PlaceAll([a, b], rules, monitors) == Pass(first + second, 2, None)
  {
    assert [a, b][1..] == [b];
    assert [b][1..] == [];
  }

  /** With at least one monitor and no more windows than monitors, the pass
      goes on to place the windows. */
  lemma PassPlacesAll(windows: seq<WindowRecord>, reported: seq<Rect>, rules: seq<Rule>)
    requires 0 < |reported| && |windows| <= |reported|
    ensures PlacementPass(windows, reported, rules) == PlaceAll(windows, rules, reported)
  {
  }

  /** One monitor, but the dashboard's rule names monitor 1: the pass fails
      before any command for that window. */
  lemma MissingMonitorStopsBeforeMoving(team: string, m0: Rect)
    ensures PlacementPass([WindowRecord(1, Some(100), "msedge.exe", DashboardTitle(team))], [m0], Rules)
            == Pass([], 0, Some(MonitorMissing(1)))
  {
    var windows := [WindowRecord(1, Some(100), "msedge.exe", DashboardTitle(team))];
    DashboardGoesToMonitorOne(team);
    PassPlacesAll(windows, [m0], Rules);
  }

  /** A window matching no rule ends the pass: the window before it stays
      placed and the one after it is never moved. */
  lemma UnmatchedWindowEndsPass(team: string, m0: Rect, m1: Rect, m2: Rect)
    ensures PlacementPass([ WindowRecord(2, Some(100), "msedge.exe", NocTitle),
                            WindowRecord(3, Some(100), "msedge.exe", "New Tab"),
                            WindowRecord(1, Some(100), "msedge.exe", DashboardTitle(team)) ],
                          [m0, m1, m2], Rules) ==
              Pass([ MoveWindow(2, m0.left, m0.top, m0.right - m0.left, m0.bottom - m0.top),
                     RestoreWindow(2), FocusWindow(2) ],
                   1, Some(UnmatchedWindow("New Tab")))
  {
    var windows := [ WindowRecord(2, Some(100), "msedge.exe", NocTitle),
                     WindowRecord(3, Some(100), "msedge.exe", "New Tab"),
                     WindowRecord(1, Some(100), "msedge.exe", DashboardTitle(team)) ];
    NewTabIsUnmatched([m0, m1, m2]);
    NocGoesToMonitorZero();
    PlaceThenFail(windows, Rules, [m0, m1, m2], MoveToMonitor(2, 0, [m0, m1, m2]).value,
                  UnmatchedWindow("New Tab"));
    PassPlacesAll(windows, [m0, m1, m2], Rules);
    OneMoveTrace(m0, m1, m2);
  }

  lemma OneMoveTrace(m0: Rect, m1: Rect, m2: Rect)
    ensures MoveToMonitor(2, 0, [m0, m1, m2]).value ==
              [ MoveWindow(2, m0.left, m0.top, m0.right - m0.left, m0.bottom - m0.top),
                RestoreWindow(2), FocusWindow(2) ]
  {
  }

  lemma NewTabIsUnmatched(monitors: seq<Rect>)
    ensures PlaceOne(WindowRecord(3, Some(100), "msedge.exe", "New Tab"), Rules, monitors)
            == Err(UnmatchedWindow("New Tab"))
  {
    NocPatternMatchesOnlyItsTitle("New Tab");
    assert !Matches(Rules[0].pattern, "New Tab");
    assert FindRule("New Tab", Rules) == None;
  }

  /** A window that places successfully followed by one that cannot be
      placed: the pass issues the first window's commands and stops. */
  lemma PlaceThenFail(windows: seq<WindowRecord>, rules: seq<Rule>, monitors: seq<Rect>,
                      first: seq<Command>, e: Fatal)
    requires |windows| >= 2
    requires PlaceOne(windows[0], rules, monitors) == Ok(first)
    requires PlaceOne(windows[1], rules, monitors) == Err(e)
    ensures PlaceAll(windows, rules, monitors) == Pass(first, 1, Some(e))
  {
    assert windows[1..][0] == windows[1];
    assert first + [] == first;
  }
}
