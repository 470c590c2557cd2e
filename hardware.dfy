/** `Hardware.populate`: the file systems of `dir` and the CPU records of
    `show processes cpu | include CPU utilization`, written into the collector's facts. */
module Hardware {
  import opened Basics
  import opened Text
  import opened Filesystems
  import opened CpuUtilization

  /** The facts the hardware collector writes; None stands for a key it has not set. */
  datatype HardwareFacts = HardwareFacts(
    filesystems: Option<seq<string>>,
    filesystemsInfo: Option<map<string, FsInfo>>,
    cpuUtilization: Option<map<string, CpuStats>>)

  /** The file-system part: nothing when `dir` printed nothing. */
  function FilesystemStage(f: HardwareFacts, data: string): Result<HardwareFacts>
  {
    if data == "" then Ok(f)
    else
      match FilesystemsInfo(data)
      case Err(e) => Err(e)
      case Ok(info) => Ok(f.(filesystems := Some(ListFilesystems(data)), filesystemsInfo := Some(info)))
  }

  /** Hardware.populate from the facts it starts with: `responses` are the outputs of
      `dir`, `show memory statistics` and the CPU command. */
  function CollectHardware(cpu: string -> Option<CpuMatch>, start: HardwareFacts, responses: seq<string>): Result<HardwareFacts>
    requires |responses| == 3
  {
    match FilesystemStage(start, responses[0])
    case Err(e) => Err(e)
    case Ok(f) =>
      match CpuFacts(cpu, Lines(responses[2]))
      case Err(e) => Err(e)
      case Ok(cores) => Ok(f.(cpuUtilization := Some(cores)))
  }

  /** Hardware.populate, when it returns, records the CPU records of the CPU output, and
      records the file systems and their byte counts only when `dir` printed something,
      with one record per listed name; it raises only on a byte-count line before any
      directory line (KeyError "") or on a CPU line missing a value (TypeError). */
  lemma HardwareOutcome(cpu: string -> Option<CpuMatch>, start: HardwareFacts, responses: seq<string>)
    requires |responses| == 3
    ensures var r := CollectHardware(cpu, start, responses);
            && (r.Err? <==> (responses[0] != "" && FilesystemsInfo(responses[0]).Err?) || CpuFacts(cpu, Lines(responses[2])).Err?)
            && (r.Err? ==> r.error == KeyError("") || r.error.TypeError?)
            && (r.Ok? ==> r.value.cpuUtilization == Some(CpuFacts(cpu, Lines(responses[2])).value))
            && (r.Ok? && responses[0] == "" ==>
                  r.value.filesystems == start.filesystems && r.value.filesystemsInfo == start.filesystemsInfo)
            && (r.Ok? && responses[0] != "" ==>
                  && r.value.filesystems == Some(ListFilesystems(responses[0]))
                  && r.value.filesystemsInfo == Some(FilesystemsInfo(responses[0]).value)
                  && forall fs :: fs in r.value.filesystemsInfo.value <==> fs in ListFilesystems(responses[0]))
  {
    FilesystemsInfoCharacterized(responses[0]);
    var lines := Lines(responses[2]);
    LastLineWins(cpu, lines);
    if CpuFacts(cpu, lines).Err? {
      CpuErrorIsTypeError(cpu, lines);
    }
  }

  /** The only error a CPU line raises is a TypeError. */
  lemma {:induction false} CpuErrorIsTypeError(cpu: string -> Option<CpuMatch>, lines: seq<string>)
    ensures CpuFacts(cpu, lines).Err? ==> CpuFacts(cpu, lines).error.TypeError?
  {
    if lines != [] {
      CpuErrorIsTypeError(cpu, lines[..|lines| - 1]);
    }
  }

  class HardwareCollector {
    const cpu: string -> Option<CpuMatch>
    var filesystems: Option<seq<string>>
    var filesystemsInfo: Option<map<string, FsInfo>>
    var cpuUtilization: Option<map<string, CpuStats>>

    function State(): HardwareFacts
      reads this
    {
      HardwareFacts(filesystems, filesystemsInfo, cpuUtilization)
    }

    constructor(cpu: string -> Option<CpuMatch>)
      ensures this.cpu == cpu && State() == HardwareFacts(None, None, None)
    {
      this.cpu := cpu;
      filesystems := None;
      filesystemsInfo := None;
      cpuUtilization := None;
    }

    /** Hardware.populate, given the three command outputs. */
    method Populate(responses: seq<string>) returns (outcome: Outcome)
      requires |responses| == 3
      modifies this
      ensures var r := CollectHardware(cpu, old(State()), responses);
              && (outcome.Pass? <==> r.Ok?)
              && (outcome.Fail? ==> r == Err(outcome.error))
              && (outcome.Pass? ==> State() == r.value)
    {
      var data := responses[0];
      if data != "" {
        filesystems := Some(ListFilesystems(data));
        var info := ParseFilesystemsInfo(data);
        if info.Err? {
          return Fail(info.error);
        }
        filesystemsInfo := Some(info.value);
      }
      var cores := ParseCpuUtilization(cpu, responses[2]);
      if cores.Err? {
        return Fail(cores.error);
      }
      cpuUtilization := Some(cores.value);
      outcome := Pass;
    }
  }
}
