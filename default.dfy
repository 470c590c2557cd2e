/** `Default.populate`: the IOS type, operating mode, serial number and the stack and
    virtual-switch facts read from `show version`, `show switch virtual` and
    `show inventory`.

    The `IOS-XE` test is written out; the other searches (the router operating mode, the
    board ID, the model and serial-number lists, the VSS domain number and the VSS serial
    numbers) are supplied by a `DefaultScrapers` value. */
module Default {
  import opened Basics
  import opened Text

  datatype DefaultScrapers = DefaultScrapers(
    routerMode: string -> Option<string>,
    boardId: string -> Option<string>,
    modelNumbers: string -> seq<string>,
    systemSerials: string -> seq<string>,
    vssDomain: string -> Option<string>,
    vssSerials: string -> seq<string>)

  /** `\sIOS-XE\s` matches at index `i`. */
  predicate IosXeAt(s: string, i: int)
  {
    0 <= i && i + 8 <= |s| && IsSpace(s[i]) && s[i + 1..i + 7] == "IOS-XE" && IsSpace(s[i + 7])
  }

  /** `re.search(r"\sIOS-XE\s", s)` started at index `i`. */
  function IosXeFrom(s: string, i: nat): bool
    decreases |s| - i
  {
    if i + 8 > |s| then false else IosXeAt(s, i) || IosXeFrom(s, i + 1)
  }

  /** The search from `i` succeeds exactly when a match starts at `i` or later. */
  lemma {:induction false} IosXeFromMeaning(s: string, i: nat)
    ensures IosXeFrom(s, i) <==> exists j :: i <= j && IosXeAt(s, j)
    decreases |s| - i
  {
    if i + 8 <= |s| {
      IosXeFromMeaning(s, i + 1);
      if !IosXeAt(s, i) && exists j :: i <= j && IosXeAt(s, j) {
        var j :| i <= j && IosXeAt(s, j);
        assert i + 1 <= j;
      }
    }
  }

  /** parse_iostype: "IOS-XE" exactly when `IOS-XE` occurs with whitespace on both sides. */
  function IosType(data: string): (t: string)
    ensures t == "IOS-XE" || t == "IOS"
    ensures t == "IOS-XE" <==> exists i :: IosXeAt(data, i)
  {
    IosXeFromMeaning(data, 0);
    if IosXeFrom(data, 0) then "IOS-XE" else "IOS"
  }

  /** parse_operatingmode, given the group of the `Router operating mode` search: an
      IOS device is always autonomous. */
  function OperatingMode(mode: Option<string>, iostype: string): (m: string)
    ensures m == "autonomous" || m == "controller"
    ensures m == "autonomous" <==> iostype == "IOS" || (mode.Some? && Contains(Lower(mode.value), "autonomous"))
  {
    if (mode.Some? && Contains(Lower(mode.value), "autonomous")) || iostype == "IOS" then "autonomous"
    else "controller"
  }

  /** The facts the default collector writes; None and Absent stand for keys it has not set. */
  datatype DefaultFacts = DefaultFacts(
    iostype: Option<string>,
    operatingmode: Option<string>,
    serialnum: Slot<string>,
    stackedModels: Option<seq<string>>,
    stackedSerialnums: Option<seq<string>>,
    virtualSwitch: Option<string>,
    virtualSwitchDomain: Option<string>,
    virtualSwitchSerialnums: Option<seq<string>>)

  /** parse_stacks: the model and serial lists when found, then "STACK" when the facts hold
      a model list. */
  function Stacks(sc: DefaultScrapers, f: DefaultFacts, data: string): DefaultFacts
  {
    var models := sc.modelNumbers(data);
    var serials := sc.systemSerials(data);
    var f1 := if models != [] then f.(stackedModels := Some(models)) else f;
    var f2 := if serials != [] then f1.(stackedSerialnums := Some(serials)) else f1;
    if f2.stackedModels.Some? then f2.(virtualSwitch := Some("STACK")) else f2
  }

  /** parse_virtual_switch: "VSS" and the domain when a domain number is found, then the
      serial list when found. */
  function VirtualSwitch(sc: DefaultScrapers, f: DefaultFacts, data: string): DefaultFacts
  {
    var domain := sc.vssDomain(data);
    var serials := sc.vssSerials(data);
    var f1 := if domain.Some? then f.(virtualSwitch := Some("VSS"), virtualSwitchDomain := domain) else f;
    if serials != [] then f1.(virtualSwitchSerialnums := Some(serials)) else f1
  }

  /** The `show version` part of Default.populate. */
  function VersionFacts(sc: DefaultScrapers, f: DefaultFacts, data: string): DefaultFacts
  {
    var t := IosType(data);
    Stacks(sc, f.(iostype := Some(t), operatingmode := Some(OperatingMode(sc.routerMode(data), t)),
                  serialnum := Present(sc.boardId(data))), data)
  }

  /** The combined `show switch virtual` and `show inventory` text is read for a virtual
      switch only when it is non-empty and reports neither an error nor standalone mode. */
  predicate VssGate(data: string)
  {
    data != "" && !Contains(data, "Invalid input") && !Contains(data, "Switch Mode : Standalone")
  }

  /** Default.populate from the facts it starts with, given the three command outputs. */
  function CollectDefault(sc: DefaultScrapers, start: DefaultFacts, responses: seq<string>): DefaultFacts
    requires |responses| == 3
  {
    var f := if responses[0] != "" then VersionFacts(sc, start, responses[0]) else start;
    var data := responses[1] + responses[2];
    if VssGate(data) then VirtualSwitch(sc, f, data) else f
  }

  /** The facts a new collector starts with. */
  const Unset := DefaultFacts(None, None, Absent, None, None, None, None, None)

  /** "VSS" wins over "STACK": the virtual switch is "VSS" when the gate opens and a domain
      number is found, otherwise "STACK" when `show version` lists a model number (or a
      model list was already there), otherwise what it was. */
  lemma VirtualSwitchDecision(sc: DefaultScrapers, start: DefaultFacts, responses: seq<string>)
    requires |responses| == 3
    ensures var data := responses[1] + responses[2];
            var vss := VssGate(data) && sc.vssDomain(data).Some?;
            var stack := responses[0] != "" && (sc.modelNumbers(responses[0]) != [] || start.stackedModels.Some?);
            CollectDefault(sc, start, responses).virtualSwitch ==
              if vss then Some("VSS") else if stack then Some("STACK") else start.virtualSwitch
  {
  }

  /** For a new collector: the virtual switch is "STACK" exactly when the VSS rule does not
      apply and `show version` lists a model number, and is set at all only by these two rules. */
  lemma NewCollectorVirtualSwitch(sc: DefaultScrapers, responses: seq<string>)
    requires |responses| == 3
    ensures var data := responses[1] + responses[2];
            var vss := VssGate(data) && sc.vssDomain(data).Some?;
            var vs := CollectDefault(sc, Unset, responses).virtualSwitch;
            && (vs == Some("VSS") <==> vss)
            && (vs == Some("STACK") <==> !vss && responses[0] != "" && sc.modelNumbers(responses[0]) != [])
            && (vs.Some? ==> vs == Some("VSS") || vs == Some("STACK"))
  {
    VirtualSwitchDecision(sc, Unset, responses);
  }

  /** After `show version` text, the IOS type follows the whitespace-bounded `IOS-XE` test and
      an IOS device is reported autonomous. */
  lemma VersionDecision(sc: DefaultScrapers, start: DefaultFacts, responses: seq<string>)
    requires |responses| == 3 && responses[0] != ""
    ensures var r := CollectDefault(sc, start, responses);
            && (r.iostype == Some("IOS-XE") <==> exists i :: IosXeAt(responses[0], i))
            && (r.iostype == Some("IOS") ==> r.operatingmode == Some("autonomous"))
            && r.serialnum.Present?
  {
    var data := responses[0];
    var t := IosType(data);
    var f := VersionFacts(sc, start, data);
    assert f.iostype == Some(t) && f.operatingmode == Some(OperatingMode(sc.routerMode(data), t));
    assert CollectDefault(sc, start, responses).iostype == f.iostype;
    assert CollectDefault(sc, start, responses).operatingmode == f.operatingmode;
    assert CollectDefault(sc, start, responses).serialnum == f.serialnum;
  }

  class DefaultCollector {
    const scrapers: DefaultScrapers
    var iostype: Option<string>
    var operatingmode: Option<string>
    var serialnum: Slot<string>
    var stackedModels: Option<seq<string>>
    var stackedSerialnums: Option<seq<string>>
    var virtualSwitch: Option<string>
    var virtualSwitchDomain: Option<string>
    var virtualSwitchSerialnums: Option<seq<string>>

    function State(): DefaultFacts
      reads this
    {
      DefaultFacts(iostype, operatingmode, serialnum, stackedModels, stackedSerialnums,
                   virtualSwitch, virtualSwitchDomain, virtualSwitchSerialnums)
    }

    constructor(scrapers: DefaultScrapers)
      ensures this.scrapers == scrapers && State() == Unset
    {
      this.scrapers := scrapers;
      iostype := None;
      operatingmode := None;
      serialnum := Absent;
      stackedModels := None;
      stackedSerialnums := None;
      virtualSwitch := None;
      virtualSwitchDomain := None;
      virtualSwitchSerialnums := None;
    }

    /** parse_stacks. */
    method ParseStacks(data: string)
      modifies this
      ensures State() == Stacks(scrapers, old(State()), data)
    {
      var models := scrapers.modelNumbers(data);
      if models != [] {
        stackedModels := Some(models);
      }
      var serials := scrapers.systemSerials(data);
      if serials != [] {
        stackedSerialnums := Some(serials);
      }
      if stackedModels.Some? {
        virtualSwitch := Some("STACK");
      }
    }

    /** parse_virtual_switch. */
    method ParseVirtualSwitch(data: string)
      modifies this
      ensures State() == VirtualSwitch(scrapers, old(State()), data)
    {
      var domain := scrapers.vssDomain(data);
      if domain.Some? {
        virtualSwitch := Some("VSS");
        virtualSwitchDomain := domain;
      }
      var serials := scrapers.vssSerials(data);
      if serials != [] {
        virtualSwitchSerialnums := Some(serials);
      }
    }

    /** Default.populate, given the three command outputs. */
    method Populate(responses: seq<string>)
      requires |responses| == 3
      modifies this
      ensures State() == CollectDefault(scrapers, old(State()), responses)
    {
      var data := responses[0];
      if data != "" {
        iostype := Some(IosType(data));
        operatingmode := Some(OperatingMode(scrapers.routerMode(data), iostype.value));
        serialnum := Present(scrapers.boardId(data));
        ParseStacks(data);
      }
      data := responses[1] + responses[2];
      if data != "" && !Contains(data, "Invalid input") && !Contains(data, "Switch Mode : Standalone") {
        ParseVirtualSwitch(data);
      }
    }
  }
}
