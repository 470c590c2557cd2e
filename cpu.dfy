/** `Hardware.parse_cpu_utilization`: one record per CPU core, read from the lines of
    `show processes cpu | include CPU utilization`.

    The composite verbose regex is supplied as a function from a line to its match
    groups; each numeric group is given by the value of its digits. A matching line
    writes the record of its core key, replacing any earlier one, and raises TypeError
    when a group it converts with `int()` did not participate in the match. */
module CpuUtilization {
  import opened Basics
  import opened Text

  /** The groups of one match: `core` as text (it is printed back into the key), the
      others as the values of their digits. */
  datatype CpuMatch = CpuMatch(
    core: Option<string>,
    fiveSec: Option<nat>,
    fiveSecNumerator: Option<nat>,
    fiveSecDenominator: Option<nat>,
    oneMin: Option<nat>,
    fiveMin: Option<nat>)

  /** The record of one core; the last field is absent when the interrupt share is not printed. */
  datatype CpuStats = CpuStats(fiveSeconds: nat, oneMinute: nat, fiveMinutes: nat, fiveSecondsInterrupt: Option<nat>)

  /** A group Python treats as true: one that matched a non-empty text. */
  predicate Truthy(core: Option<string>)
  {
    core.Some? && core.value != ""
  }

  /** The key of a core's record: "core", or "core_" followed by the group's text. */
  function CoreKey(core: Option<string>): string
  {
    if Truthy(core) then "core_" + core.value else "core"
  }

  /** Two matches write the same record exactly when both name no core or both name the same one. */
  lemma CoreKeySame(a: Option<string>, b: Option<string>)
    ensures CoreKey(a) == CoreKey(b) <==> (Truthy(a) <==> Truthy(b)) && (Truthy(a) ==> a.value == b.value)
  {
    if Truthy(a) && Truthy(b) && CoreKey(a) == CoreKey(b) {
      assert a.value == CoreKey(a)[5..];
      assert b.value == CoreKey(b)[5..];
    }
    if Truthy(a) != Truthy(b) {
      assert |CoreKey(a)| != |CoreKey(b)|;
    }
  }

  /** The record a match writes: five seconds from the numerator when it is there, else
      from the plain percentage; a TypeError names the first value `int()` is given None for. */
  function CpuRecord(m: CpuMatch): (r: Result<CpuStats>)
    ensures r.Ok? <==> (m.fiveSecNumerator.Some? || m.fiveSec.Some?) && m.oneMin.Some? && m.fiveMin.Some?
    ensures r.Ok? ==> r.value.fiveSeconds == (if m.fiveSecNumerator.Some? then m.fiveSecNumerator else m.fiveSec).value
    ensures r.Ok? ==> r.value.oneMinute == m.oneMin.value && r.value.fiveMinutes == m.fiveMin.value
    ensures r.Ok? ==> r.value.fiveSecondsInterrupt == m.fiveSecDenominator
  {
    var five := if m.fiveSecNumerator.Some? then m.fiveSecNumerator else m.fiveSec;
    if five.None? then Err(TypeError("five_seconds"))
    else if m.oneMin.None? then Err(TypeError("one_minute"))
    else if m.fiveMin.None? then Err(TypeError("five_minutes"))
    else Ok(CpuStats(five.value, m.oneMin.value, m.fiveMin.value, m.fiveSecDenominator))
  }

  /** The loop of parse_cpu_utilization over a sequence of lines. */
  function CpuFacts(cpu: string -> Option<CpuMatch>, lines: seq<string>): Result<map<string, CpuStats>>
  {
    if lines == [] then Ok(map[])
    else
      match CpuFacts(cpu, lines[..|lines| - 1])
      case Err(e) => Err(e)
      case Ok(facts) =>
        match cpu(lines[|lines| - 1])
        case None => Ok(facts)
        case Some(m) =>
          match CpuRecord(m)
          case Err(e) => Err(e)
          case Ok(stats) => Ok(facts[CoreKey(m.core) := stats])
  }

  /** parse_cpu_utilization itself. */
  method ParseCpuUtilization(cpu: string -> Option<CpuMatch>, data: string) returns (r: Result<map<string, CpuStats>>)
    ensures r == CpuFacts(cpu, Lines(data))
  {
    var lines := Lines(data);
    var facts: map<string, CpuStats> := map[];
    var i := 0;
    while i < |lines|
      invariant 0 <= i <= |lines|
      invariant CpuFacts(cpu, lines[..i]) == Ok(facts)
    {
      var line := lines[i];
      assert lines[..i + 1][..i] == lines[..i];
      i := i + 1;
      var found := cpu(line);
      if found.Some? {
        var m := found.value;
        var key := "core";
        if Truthy(m.core) {
          key := "core_" + m.core.value;
        }
        var stats := CpuRecord(m);
        if stats.Err? {
          CpuErrorSticks(cpu, lines, i);
          return Err(stats.error);
        }
        facts := facts[key := stats.value];
      }
    }
    assert lines[..i] == lines;
    return Ok(facts);
  }

  /** Once a line has raised, later lines change nothing. */
  lemma {:induction false} CpuErrorSticks(cpu: string -> Option<CpuMatch>, lines: seq<string>, j: nat)
    requires j <= |lines| && CpuFacts(cpu, lines[..j]).Err?
    ensures CpuFacts(cpu, lines) == CpuFacts(cpu, lines[..j])
    decreases |lines|
  {
    if j < |lines| {
      var init := lines[..|lines| - 1];
      assert init[..j] == lines[..j];
      CpuErrorSticks(cpu, init, j);
    } else {
      assert lines[..j] == lines;
    }
  }

  /** Index of the last matching line whose record goes under `key`, or -1. */
  function LastLineFor(cpu: string -> Option<CpuMatch>, lines: seq<string>, key: string): (j: int)
    ensures -1 <= j < |lines|
    ensures j >= 0 ==> cpu(lines[j]).Some? && CoreKey(cpu(lines[j]).value.core) == key
    ensures forall j' :: j < j' < |lines| && cpu(lines[j']).Some? ==> CoreKey(cpu(lines[j']).value.core) != key
  {
    if lines == [] then -1
    else
      var m := cpu(lines[|lines| - 1]);
      if m.Some? && CoreKey(m.value.core) == key then |lines| - 1
      else LastLineFor(cpu, lines[..|lines| - 1], key)
  }

  /** parse_cpu_utilization raises exactly when some matching line's record raises; when it
      returns, it holds a record for exactly the keys of the matching lines, and each one is
      the record of the LAST matching line with that key. */
  lemma {:induction false} LastLineWins(cpu: string -> Option<CpuMatch>, lines: seq<string>)
    ensures CpuFacts(cpu, lines).Err? <==>
            exists i :: 0 <= i < |lines| && cpu(lines[i]).Some? && CpuRecord(cpu(lines[i]).value).Err?
    ensures CpuFacts(cpu, lines).Ok? ==>
              forall key :: key in CpuFacts(cpu, lines).value <==> LastLineFor(cpu, lines, key) >= 0
    ensures CpuFacts(cpu, lines).Ok? ==>
              forall key | key in CpuFacts(cpu, lines).value ::
                CpuFacts(cpu, lines).value[key] == CpuRecord(cpu(lines[LastLineFor(cpu, lines, key)]).value).value
  {
    if lines == [] {
      return;
    }
    var n := |lines| - 1;
    var init, l := lines[..n], lines[n];
    LastLineWins(cpu, init);
    forall j | 0 <= j < n ensures lines[j] == init[j] { }
    match CpuFacts(cpu, init)
    case Err(e) =>
      var i :| 0 <= i < |init| && cpu(init[i]).Some? && CpuRecord(cpu(init[i]).value).Err?;
      assert cpu(lines[i]).Some? && CpuRecord(cpu(lines[i]).value).Err?;
    case Ok(facts) =>
      assert forall i :: 0 <= i < n ==> !(cpu(lines[i]).Some? && CpuRecord(cpu(lines[i]).value).Err?);
      if cpu(l).Some? && CpuRecord(cpu(l).value).Ok? {
        var k := CoreKey(cpu(l).value.core);
        forall key ensures LastLineFor(cpu, lines, key) == if key == k then n else LastLineFor(cpu, init, key) { }
      } else if cpu(l).None? {
        forall key ensures LastLineFor(cpu, lines, key) == LastLineFor(cpu, init, key) { }
      }
  }
}
