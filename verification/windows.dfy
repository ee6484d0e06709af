/** The window enumerator: one pass over the operating system's top-level
    windows keeps the visible, titled windows owned by the target process.
    The operating system's answers are given as a snapshot, one entry per
    window in enumeration order. */
module Windows {
  import opened Outcomes
  import Config

  /** What looking up a window's owning process produced: its id and
      executable name, or one of the two exceptions the script catches (the
      process exited, or access to it was denied). */
  datatype ProcessLookup = Resolved(pid: nat, name: string) | LookupFailed

  /** What the operating system reports about one top-level window. */
  datatype WindowInfo = WindowInfo(hwnd: nat, visible: bool, title: string, owner: ProcessLookup)

  /** A kept window: handle, process id (absent when the lookup failed),
      process name and title. */
  datatype WindowRecord = WindowRecord(hwnd: nat, pid: Option<nat>, processName: string, title: string)

  /** Name substituted for a process that could not be looked up. */
  const UnknownProcess: string := "Desconhecido"

  /** `get_process_name_from_hwnd`: a failed lookup degrades to an absent id
      and a placeholder name instead of raising; a found process gives its
      id and name unchanged. */
  function ProcessOf(owner: ProcessLookup): (r: (Option<nat>, string))
    ensures r.0.None? <==> owner.LookupFailed?
    ensures owner.LookupFailed? ==> r.1 == UnknownProcess
    ensures owner.Resolved? ==> r.0 == Some(owner.pid) && r.1 == owner.name
  {
    match owner
    case Resolved(pid, name) => (Some(pid), name)
    case LookupFailed => (None, UnknownProcess)
  }

  function LowerChar(c: char): char {
    if 'A' <= c <= 'Z' then (c as int + 32) as char else c
  }

  /** ASCII lower-casing of a string. */
  function Lower(s: string): string {
    seq(|s|, i requires 0 <= i < |s| => LowerChar(s[i]))
  }

  /** The record a window contributes once it is kept. */
  function RecordOf(w: WindowInfo): WindowRecord {
    var (pid, name) := ProcessOf(w.owner);
    WindowRecord(w.hwnd, pid, name, w.title)
  }

  /** Two process names that are equal up to ASCII letter case. */
  predicate SameName(a: string, b: string) {
    Lower(a) == Lower(b)
  }

  /** The target names for which a failed lookup can never pass the name
      comparison; the configured target is one of them. */
  predicate Distinguishable(target: string) {
    !SameName(UnknownProcess, target)
  }

  lemma ConfiguredTargetDistinguishable()
    ensures Distinguishable(Config.TargetProcess)
  {
    assert |Lower(UnknownProcess)| != |Lower(Config.TargetProcess)|;
  }

  /** Independent statement of which windows the enumerator keeps: visible,
      titled, and owned by a process that was found and whose name equals the
      target's up to letter case. */
  predicate Wanted(target: string, w: WindowInfo) {
    && w.visible
    && |w.title| > 0
    && w.owner.Resolved?
    && SameName(w.owner.name, target)
  }

  /** `enum_handler`: the callback run for each enumerated window; it appends
      the window's record to the accumulated result when the window is
      visible, titled and owned by the target process. The target is
      `Config.TargetProcess` in the script; it is a parameter here. */
  function EnumHandler(target: string, w: WindowInfo, result: seq<WindowRecord>): (r: seq<WindowRecord>)
    ensures r == result || r == result + [RecordOf(w)]
    ensures Distinguishable(target) ==>
              (r == result + [RecordOf(w)] <==> Wanted(target, w))
  {
    if w.visible && |w.title| > 0 then
      var (pid, name) := ProcessOf(w.owner);
      if Lower(name) == Lower(target) then
        result + [WindowRecord(w.hwnd, pid, name, w.title)]
      else result
    else result
  }

  /** The records an enumeration pass collects: the callback applied to every
      window in enumeration order, starting from an empty list. */
  function Enumerate(target: string, screen: seq<WindowInfo>): (r: seq<WindowRecord>)
    ensures |r| <= |screen|
    ensures forall k :: 0 <= k < |r| ==>
              && |r[k].title| > 0
              && SameName(r[k].processName, target)
              && (Distinguishable(target) ==> r[k].pid.Some?)
  {
    if |screen| == 0 then []
    else EnumHandler(target, screen[|screen| - 1], Enumerate(target, screen[..|screen| - 1]))
  }

  /** Enumerating two consecutive stretches of windows gives the records of
      the first stretch followed by those of the second: the pass keeps
      windows in enumeration order. */
  lemma {:induction false} EnumerateAppend(target: string, a: seq<WindowInfo>, b: seq<WindowInfo>)
    ensures Enumerate(target, a + b) == Enumerate(target, a) + Enumerate(target, b)
    decreases |b|
  {
    if |b| == 0 {
      assert a + b == a;
    } else {
      var b' := b[..|b| - 1];
      assert (a + b)[..|a + b| - 1] == a + b';
      assert (a + b)[|a + b| - 1] == b[|b| - 1];
      EnumerateAppend(target, a, b');
    }
  }

  /** A pass over a single window keeps it exactly when it is wanted. */
  lemma EnumerateOne(target: string, w: WindowInfo)
    requires Distinguishable(target)
    ensures Wanted(target, w) ==> Enumerate(target, [w]) == [RecordOf(w)]
    ensures !Wanted(target, w) ==> Enumerate(target, [w]) == []
  {
    assert [w][..0] == [];
  }

  /** Window `w` is kept and contributes record `rec`. */
  predicate Contributes(target: string, w: WindowInfo, rec: WindowRecord) {
    Wanted(target, w) && RecordOf(w) == rec
  }

  /** A record is collected exactly when some enumerated window is wanted and
      contributes that record; in particular no window whose owner could not
      be looked up is ever kept. */
  lemma {:induction false} EnumerateMembers(target: string, screen: seq<WindowInfo>, rec: WindowRecord)
    requires Distinguishable(target)
    ensures rec in Enumerate(target, screen) <==>
              exists i :: 0 <= i < |screen| && Contributes(target, screen[i], rec)
    decreases |screen|
  {
    if |screen| > 0 {
      var init := screen[..|screen| - 1];
      EnumerateMembers(target, init, rec);
      assert Enumerate(target, screen) == EnumHandler(target, screen[|screen| - 1], Enumerate(target, init));
      if rec in Enumerate(target, init) {
        var i :| 0 <= i < |init| && Contributes(target, init[i], rec);
        assert screen[i] == init[i];
      }
      if i :| 0 <= i < |screen| && Contributes(target, screen[i], rec) {
        if i < |init| {
          assert init[i] == screen[i];
        }
      }
    }
  }
}
