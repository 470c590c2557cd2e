/** The LLDP and CDP neighbour tables of the Interfaces collector: the detail output is
    cut into entries at a line of dashes, every entry names a local interface, and the
    neighbours are grouped by that interface in the order of the entries.

    The per-field regex searches over an entry are supplied by a `NeighborScrapers`
    value, and so is `normalize_interface`, which belongs to another module. */
module Neighbors {
  import opened Basics
  import opened Text

  /** One neighbour: the LLDP form has host, port and ip; the CDP form adds the platform
      and takes the remote port from the same line as the local interface. */
  datatype Neighbor =
    | LldpNeighbor(host: Option<string>, port: Option<string>, ip: Option<string>)
    | CdpNeighbor(host: Option<string>, platform: Option<string>, portId: string, ip: Option<string>)

  /** What the per-field regex searches return for one entry: the LLDP local interface,
      system name, port id and management address, the CDP "Interface: ..., Port ID
      (outgoing port): ..." pair, device id, platform and IP address. */
  datatype EntryFields = EntryFields(
    lldpIntf: Option<string>,
    lldpHost: Option<string>,
    lldpPort: Option<string>,
    lldpIp: Option<string>,
    cdpIntfPort: Option<(string, string)>,
    cdpHost: Option<string>,
    cdpPlatform: Option<string>,
    cdpIp: Option<string>)

  /** The text of one entry, as the searches receive it. */
  datatype EntryText = EntryText(text: string)

  /** The searches, as one function of the entry, and `normalize_interface`. */
  datatype NeighborScrapers = NeighborScrapers(fields: EntryText -> EntryFields, normalize: string -> string)

  datatype Protocol = Lldp | Cdp

  /** The entry separator: 48 dashes for `show lldp neighbors detail`, 25 for
      `show cdp neighbors detail`. */
  function Separator(p: Protocol): (sep: string)
    ensures |sep| > 0
  {
    match p
    case Lldp => "------------------------------------------------"
    case Cdp => "-------------------------"
  }

  /** The local interface an entry is filed under and the neighbour it describes; None
      when the entry names no interface. LLDP interface names are normalized, CDP ones
      are kept as printed. */
  function Entry(sc: NeighborScrapers, p: Protocol, entry: string): Option<(string, Neighbor)>
  {
    var f := sc.fields(EntryText(entry));
    match p
    case Lldp =>
      (match f.lldpIntf
       case None => None
       case Some(intf) => Some((sc.normalize(intf), LldpNeighbor(f.lldpHost, f.lldpPort, f.lldpIp))))
    case Cdp =>
      (match f.cdpIntfPort
       case None => None
       case Some(ip) => Some((ip.0, CdpNeighbor(f.cdpHost, f.cdpPlatform, ip.1, f.cdpIp))))
  }

  /** An entry the loop gets past: an empty one (skipped) or one naming an interface. */
  predicate Passable(sc: NeighborScrapers, p: Protocol, entry: string)
  {
    entry == "" || Entry(sc, p, entry).Some?
  }

  /** Where the loop stops: the first entry that is neither empty nor names an interface. */
  function StopAt(sc: NeighborScrapers, p: Protocol, entries: seq<string>): (n: nat)
    ensures n <= |entries|
    ensures forall j :: 0 <= j < n ==> Passable(sc, p, entries[j])
    ensures n < |entries| ==> !Passable(sc, p, entries[n])
  {
    if entries == [] || !Passable(sc, p, entries[0]) then 0 else 1 + StopAt(sc, p, entries[1..])
  }

  /** The table built from entries, all passable: each non-empty entry's neighbour is
      appended to its interface's list. */
  function Group(sc: NeighborScrapers, p: Protocol, entries: seq<string>): map<string, seq<Neighbor>>
  {
    if entries == [] then map[]
    else
      var facts := Group(sc, p, entries[..|entries| - 1]);
      var last := entries[|entries| - 1];
      match (if last == "" then None else Entry(sc, p, last))
      case None => facts
      case Some(e) => facts[e.0 := (if e.0 in facts then facts[e.0] else []) + [e.1]]
  }

  /** parse_neighbors (LLDP) and parse_cdp_neighbors (CDP): the table of the entries
      before the first one that names no interface. */
  function NeighborTable(sc: NeighborScrapers, p: Protocol, output: string): map<string, seq<Neighbor>>
  {
    var entries := Split(output, Separator(p));
    Group(sc, p, entries[..StopAt(sc, p, entries)])
  }

  /** The neighbours the given entries file under `intf`, in entry order. */
  function NeighborsOn(sc: NeighborScrapers, p: Protocol, entries: seq<string>, intf: string): seq<Neighbor>
  {
    if entries == [] then []
    else
      var first := entries[0];
      (if first != "" && Entry(sc, p, first).Some? && Entry(sc, p, first).value.0 == intf
       then [Entry(sc, p, first).value.1] else [])
      + NeighborsOn(sc, p, entries[1..], intf)
  }

  lemma {:induction false} NeighborsOnSnoc(sc: NeighborScrapers, p: Protocol, entries: seq<string>, e: string, intf: string)
    ensures NeighborsOn(sc, p, entries + [e], intf) ==
            NeighborsOn(sc, p, entries, intf) + NeighborsOn(sc, p, [e], intf)
  {
    if entries != [] {
      assert (entries + [e])[1..] == entries[1..] + [e];
      NeighborsOnSnoc(sc, p, entries[1..], e, intf);
    } else {
      assert entries + [e] == [e];
    }
  }

  /** The neighbour one entry files under `intf`, if any. */
  lemma NeighborsOnOne(sc: NeighborScrapers, p: Protocol, e: string, intf: string)
    ensures NeighborsOn(sc, p, [e], intf) ==
            if e != "" && Entry(sc, p, e).Some? && Entry(sc, p, e).value.0 == intf then [Entry(sc, p, e).value.1] else []
  {
    assert [e][1..] == [];
  }

  /** The table lists exactly the interfaces that some entry names, and under each one
      every neighbour filed under it, in the order of the entries. */
  lemma {:induction false} GroupByInterface(sc: NeighborScrapers, p: Protocol, entries: seq<string>)
    ensures forall intf :: intf in Group(sc, p, entries) <==> NeighborsOn(sc, p, entries, intf) != []
    ensures forall intf :: intf in Group(sc, p, entries) ==> Group(sc, p, entries)[intf] == NeighborsOn(sc, p, entries, intf)
  {
    if entries != [] {
      var init, last := entries[..|entries| - 1], entries[|entries| - 1];
      assert entries == init + [last];
      GroupByInterface(sc, p, init);
      var facts, table := Group(sc, p, init), Group(sc, p, entries);
      var found := if last == "" then None else Entry(sc, p, last);
      forall intf
        ensures intf in table <==> NeighborsOn(sc, p, entries, intf) != []
        ensures intf in table ==> table[intf] == NeighborsOn(sc, p, entries, intf)
      {
        NeighborsOnSnoc(sc, p, init, last, intf);
        NeighborsOnOne(sc, p, last, intf);
        if found.None? || found.value.0 != intf {
          assert intf in table <==> intf in facts;
          assert intf in table ==> table[intf] == facts[intf];
        }
      }
    }
  }

  /** Entries after the first one naming no interface are ignored, whatever they hold. */
  lemma {:induction false} StopIgnoresRest(sc: NeighborScrapers, p: Protocol, good: seq<string>, bad: string, rest: seq<string>)
    requires forall j :: 0 <= j < |good| ==> Passable(sc, p, good[j])
    requires !Passable(sc, p, bad)
    ensures StopAt(sc, p, good + [bad] + rest) == |good|
  {
    var all := good + [bad] + rest;
    if good == [] {
      assert all[0] == bad;
    } else {
      assert all[0] == good[0];
      assert all[1..] == good[1..] + [bad] + rest;
      StopIgnoresRest(sc, p, good[1..], bad, rest);
    }
  }

  /** The table after one more prefix entry: the one before, with that entry's neighbour
      appended under its interface when it names one. */
  lemma GroupNext(sc: NeighborScrapers, p: Protocol, entries: seq<string>, i: nat)
    requires i < |entries|
    ensures var facts := Group(sc, p, entries[..i]);
            var last := entries[i];
            Group(sc, p, entries[..i + 1]) ==
              match (if last == "" then None else Entry(sc, p, last))
              case None => facts
              case Some(e) => facts[e.0 := (if e.0 in facts then facts[e.0] else []) + [e.1]]
  {
    assert entries[..i + 1][..i] == entries[..i];
  }

  /** The loop stops at the first entry it cannot pass. */
  lemma StopAtFirst(sc: NeighborScrapers, p: Protocol, entries: seq<string>, i: nat)
    requires i <= |entries|
    requires forall j :: 0 <= j < i ==> Passable(sc, p, entries[j])
    requires i < |entries| ==> !Passable(sc, p, entries[i])
    ensures StopAt(sc, p, entries) == i
  {
  }

  /** Creating an empty list under `k` when it is missing and then appending `x` to it. */
  lemma AppendUnder(facts: map<string, seq<Neighbor>>, k: string, x: Neighbor)
    ensures var m := if k in facts then facts else facts[k := []];
            m[k := m[k] + [x]] == facts[k := (if k in facts then facts[k] else []) + [x]]
  {
  }

  /** The loop of parse_neighbors / parse_cdp_neighbors over the entries, with its early
      return at the first entry that names no interface. */
  method GroupEntries(sc: NeighborScrapers, p: Protocol, entries: seq<string>) returns (facts: map<string, seq<Neighbor>>)
    ensures facts == Group(sc, p, entries[..StopAt(sc, p, entries)])
  {
    facts := map[];
    var i := 0;
    while i < |entries|
      invariant 0 <= i <= |entries|
      invariant forall j :: 0 <= j < i ==> Passable(sc, p, entries[j])
      invariant facts == Group(sc, p, entries[..i])
    {
      GroupNext(sc, p, entries, i);
      var entry := entries[i];
      if entry != "" {
        var found := Entry(sc, p, entry);
        if found.None? {
          StopAtFirst(sc, p, entries, i);
          return;
        }
        var (intf, neighbor) := found.value;
        AppendUnder(facts, intf, neighbor);
        if intf !in facts {
          facts := facts[intf := []];
        }
        facts := facts[intf := facts[intf] + [neighbor]];
      }
      i := i + 1;
    }
    StopAtFirst(sc, p, entries, i);
    assert entries[..i] == entries;
  }

  /** parse_neighbors (LLDP) and parse_cdp_neighbors (CDP). */
  method ParseNeighbors(sc: NeighborScrapers, p: Protocol, output: string) returns (facts: map<string, seq<Neighbor>>)
    ensures facts == NeighborTable(sc, p, output)
  {
    var entries := Split(output, Separator(p));
    facts := GroupEntries(sc, p, entries);
  }
}
