/** The script's fixed configuration: the owning process to look for, the
    wait budget and the ordered mapping from title pattern to monitor. */
module Config {

  /** Executable name whose windows are arranged (compared case-insensitively). */
  const TargetProcess: string := "msedge.exe"

  /** Wait budget in whole seconds, measured from the script's start time. */
  const TimeoutSeconds: nat := 3

  /** The same budget in microseconds, the resolution of the clock readings. */
  const TimeoutMicros: nat := TimeoutSeconds * 1_000_000

  /** One entry of the pattern-to-monitor mapping. */
  datatype Rule = Rule(pattern: string, monitor: nat)

  /** The mapping in insertion order, which is the order dictionary iteration
      visits it in. */
  const Rules: seq<Rule> := [
    Rule("TI * Dashboards - Grafana", 1),
    Rule("NOC SCC: Dashboard", 0)
  ]

  /** The keys of a mapping, in order. */
  function Patterns(rules: seq<Rule>): seq<string>
  {
    seq(|rules|, i requires 0 <= i < |rules| => rules[i].pattern)
  }
}
