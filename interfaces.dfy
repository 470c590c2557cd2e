/** The Interfaces collector: what Interfaces.populate leaves in `facts` after reading
    `show interfaces`, `show ip interface`, `show ipv6 interface`, `show lldp` and
    `show cdp`, first as a function of those outputs (`InterfaceFacts`), then as the
    collector object whose methods change its facts step by step. */
module Interfaces {
  import opened Basics
  import opened Text
  import opened OrderedDict
  import opened InterfaceBlocks
  import opened InterfaceRecords
  import opened Neighbors

  /** The facts the collector owns. `interfaces` is None while the "interfaces" key is
      missing. */
  datatype Facts = Facts(
    interfaces: Option<map<string, Record>>,
    allIpv4: seq<string>,
    allIpv6: seq<string>,
    neighbors: map<string, seq<Neighbor>>)

  /** populate_interfaces: one primary record per block of `show interfaces`. */
  function PrimaryRecords(sc: Scrapers, blocks: Dict<string>): map<string, Record>
  {
    map k | k in blocks.entries :: PrimaryRecord(sc, blocks.entries[k])
  }

  function GlobalList(f: Facts, family: Family): seq<string>
  {
    match family
    case Ipv4 => f.allIpv4
    case Ipv6 => f.allIpv6
  }

  function WithGlobalList(f: Facts, family: Family, all: seq<string>): Facts
  {
    match family
    case Ipv4 => f.(allIpv4 := all)
    case Ipv6 => f.(allIpv6 := all)
  }

  /** populate_ipv4_interfaces / populate_ipv6_interfaces on the blocks of their command.
      Without an "interfaces" key the first block raises KeyError. */
  function AddressFacts(sc: Scrapers, family: Family, f: Facts, blocks: Dict<string>): Result<Facts>
    requires blocks.Valid()
  {
    match f.interfaces
    case None => if blocks.keys == [] then Ok(f) else Err(KeyError("interfaces"))
    case Some(recs) =>
      match AddressPass(sc, family, ReaderOf(sc, family), recs, GlobalList(f, family), blocks.keys, blocks.entries)
      case Err(e) => Err(e)
      case Ok(st) => Ok(WithGlobalList(f.(interfaces := Some(st.0)), family, st.1))
  }

  /** The `show lldp` output lets the collector ask for LLDP neighbours. */
  predicate LldpGate(show: string)
  {
    show != "" && !Contains(show, "Invalid input") && !Contains(show, "LLDP is not enabled")
  }

  /** The `show cdp` output lets the collector ask for CDP neighbours. */
  predicate CdpGate(show: string)
  {
    show != "" && !Contains(show, "CDP is not enabled")
  }

  /** The LLDP table merged into the neighbours: only when the gate is open and the
      detail command returned something. */
  function LldpTable(nsc: NeighborScrapers, show: string, detail: seq<string>): map<string, seq<Neighbor>>
  {
    if LldpGate(show) && |detail| > 0 then NeighborTable(nsc, Lldp, detail[0]) else map[]
  }

  function CdpTable(nsc: NeighborScrapers, show: string, detail: seq<string>): map<string, seq<Neighbor>>
  {
    if CdpGate(show) && |detail| > 0 then NeighborTable(nsc, Cdp, detail[0]) else map[]
  }

  /** One command's blocks, or the KeyError parse_interfaces raises. An empty output is
      not parsed at all. */
  function BlocksOrNone(data: string): (r: Result<Option<Dict<string>>>)
    ensures r.Ok? && r.value.Some? ==> r.value.value.Valid()
  {
    if data == "" then Ok(None)
    else
      match Blocks(data)
      case Err(e) => Err(e)
      case Ok(d) => Ok(Some(d))
  }

  /** The `show interfaces` stage: each block becomes a primary record. */
  function PrimaryStage(sc: Scrapers, f: Facts, data: string): Result<Facts>
  {
    match BlocksOrNone(data)
    case Err(e) => Err(e)
    case Ok(None) => Ok(f)
    case Ok(Some(blocks)) => Ok(f.(interfaces := Some(PrimaryRecords(sc, blocks))))
  }

  /** The `show ip interface` (Ipv4) or `show ipv6 interface` (Ipv6) stage. */
  function AddressStage(sc: Scrapers, family: Family, f: Facts, data: string): Result<Facts>
  {
    match BlocksOrNone(data)
    case Err(e) => Err(e)
    case Ok(None) => Ok(f)
    case Ok(Some(blocks)) => AddressFacts(sc, family, f, blocks)
  }

  /** The neighbour stage: the LLDP table, then the CDP table, merged into the
      neighbours with `update`. */
  function NeighborStage(nsc: NeighborScrapers, f: Facts, lldpShow: string, lldpDetail: seq<string>,
                         cdpShow: string, cdpDetail: seq<string>): Facts
  {
    f.(neighbors := f.neighbors + LldpTable(nsc, lldpShow, lldpDetail) + CdpTable(nsc, cdpShow, cdpDetail))
  }

  /** Interfaces.populate from the facts it starts with (`start` being the
      "interfaces" entry, if any): `responses` are the five command outputs,
      `lldpDetail` and `cdpDetail` what `show lldp neighbors detail` and
      `show cdp neighbors detail` would return when run. The address lists and the
      neighbours start empty. */
  function InterfaceFacts(sc: Scrapers, nsc: NeighborScrapers, start: Option<map<string, Record>>,
                          responses: seq<string>, lldpDetail: seq<string>, cdpDetail: seq<string>): Result<Facts>
    requires |responses| == 5
  {
    match PrimaryStage(sc, Facts(start, [], [], map[]), responses[0])
    case Err(e) => Err(e)
    case Ok(f1) =>
      match AddressStage(sc, Ipv4, f1, responses[1])
      case Err(e) => Err(e)
      case Ok(f2) =>
        match AddressStage(sc, Ipv6, f2, responses[2])
        case Err(e) => Err(e)
        case Ok(f3) => Ok(NeighborStage(nsc, f3, responses[3], lldpDetail, responses[4], cdpDetail))
  }

  /** The global list the other family's pass leaves alone. */
  function OtherFamily(family: Family): Family
  {
    match family
    case Ipv4 => Ipv6
    case Ipv6 => Ipv4
  }

  /** `k` names a block of a non-empty command output that parses. */
  predicate InBlocks(data: string, k: string)
  {
    match BlocksOrNone(data)
    case Ok(Some(d)) => k in d.keys
    case _ => false
  }

  /** The `show interfaces` stage raises only when the text cannot be split into blocks;
      otherwise a non-empty output replaces the records by one primary record per block. */
  lemma PrimaryStageEffect(sc: Scrapers, f: Facts, data: string)
    ensures PrimaryStage(sc, f, data).Err? <==> data != "" && Blocks(data).Err?
    ensures PrimaryStage(sc, f, data).Ok? ==>
              var g := PrimaryStage(sc, f, data).value;
              && g.allIpv4 == f.allIpv4 && g.allIpv6 == f.allIpv6 && g.neighbors == f.neighbors
              && (data == "" ==> g.interfaces == f.interfaces)
              && (data != "" ==>
                    && g.interfaces.Some?
                    && (forall k :: k in g.interfaces.value <==> InBlocks(data, k))
                    && (forall k | k in g.interfaces.value :: HasAllAttributes(g.interfaces.value[k])))
  {
  }

  /** An address stage raises exactly when its text cannot be split into blocks, when it
      has blocks but there is no "interfaces" key, or when one block's addresses do not parse. */
  lemma {:induction false} AddressStageRaises(sc: Scrapers, family: Family, f: Facts, data: string)
    ensures AddressStage(sc, family, f, data).Err? <==>
            || (data != "" && Blocks(data).Err?)
            || (f.interfaces.None? && exists k :: InBlocks(data, k))
            || (f.interfaces.Some? && exists k :: InBlocks(data, k) && Entries(sc, family, Blocks(data).value.entries[k]).Err?)
    ensures f.interfaces.None? && AddressStage(sc, family, f, data).Err? && (data == "" || Blocks(data).Ok?) ==>
              AddressStage(sc, family, f, data) == Err(KeyError("interfaces"))
  {
    match BlocksOrNone(data)
    case Err(e) =>
    case Ok(None) =>
    case Ok(Some(d)) =>
      assert d == Blocks(data).value;
      if f.interfaces.None? {
        if d.keys != [] {
          assert InBlocks(data, d.keys[0]);
        }
      } else {
        AddressPassRaises(sc, family, ReaderOf(sc, family), f.interfaces.value, GlobalList(f, family), d.keys, d.entries);
        if AddressStage(sc, family, f, data).Err? {
          var i :| 0 <= i < |d.keys| && !Entries(sc, family, d.entries[d.keys[i]]).Ok?;
          assert InBlocks(data, d.keys[i]);
        }
      }
  }

  /** A pass that returns keeps every record `Shaped`, adds a record with the family's
      list for each of its keys and leaves the other records alone. */
  lemma PassShape(sc: Scrapers, family: Family, recs: map<string, Record>, all: seq<string>, blocks: Dict<string>)
    requires blocks.Valid()
    requires forall k | k in recs :: Shaped(recs[k])
    ensures var pass := AddressPass(sc, family, ReaderOf(sc, family), recs, all, blocks.keys, blocks.entries);
            pass.Ok? ==>
              && (forall k :: k in pass.value.0 <==> k in recs || k in blocks.keys)
              && (forall k | k in pass.value.0 :: Shaped(pass.value.0[k]))
              && (forall k | k in blocks.keys :: ListOf(pass.value.0[k], family).Some?)
              && (forall k | k in recs && k !in blocks.keys :: pass.value.0[k] == recs[k])
              && (forall k | k in recs :: ListOf(pass.value.0[k], OtherFamily(family)) == ListOf(recs[k], OtherFamily(family)))
  {
    AddressPassEffect(sc, family, ReaderOf(sc, family), recs, all, blocks.keys, blocks.entries);
    var pass := AddressPass(sc, family, ReaderOf(sc, family), recs, all, blocks.keys, blocks.entries);
    if pass.Ok? {
      RefreshedShape(sc, family, ReaderOf(sc, family), recs, blocks.keys, blocks.entries, pass.value.0);
      RefreshedKeepsOther(sc, family, ReaderOf(sc, family), recs, blocks.keys, blocks.entries, pass.value.0, OtherFamily(family));
    }
  }

  /** An address stage that returns keeps every record `Shaped`, adds a record for each of
      its blocks (with the family's list set), leaves the other records, the other family's
      global list and the neighbours alone. */
  lemma AddressStageEffect(sc: Scrapers, family: Family, f: Facts, data: string)
    requires f.interfaces.Some? ==> forall k | k in f.interfaces.value :: Shaped(f.interfaces.value[k])
    ensures AddressStage(sc, family, f, data).Ok? ==>
              var g := AddressStage(sc, family, f, data).value;
              && g.neighbors == f.neighbors
              && GlobalList(g, OtherFamily(family)) == GlobalList(f, OtherFamily(family))
              && (g.interfaces.Some? <==> f.interfaces.Some?)
              && (g.interfaces.Some? ==>
                    && (forall k :: k in g.interfaces.value <==> k in f.interfaces.value || InBlocks(data, k))
                    && (forall k | k in g.interfaces.value :: Shaped(g.interfaces.value[k]))
                    && (forall k | InBlocks(data, k) :: ListOf(g.interfaces.value[k], family).Some?)
                    && (forall k | k in f.interfaces.value && !InBlocks(data, k) :: g.interfaces.value[k] == f.interfaces.value[k])
                    && (forall k | k in f.interfaces.value ::
                          ListOf(g.interfaces.value[k], OtherFamily(family)) == ListOf(f.interfaces.value[k], OtherFamily(family))))
  {
    match BlocksOrNone(data)
    case Err(e) =>
    case Ok(None) =>
    case Ok(Some(d)) =>
      if f.interfaces.Some? {
        PassShape(sc, family, f.interfaces.value, GlobalList(f, family), d);
        assert forall k :: InBlocks(data, k) <==> k in d.keys;
      }
  }

  /** The neighbours after Interfaces.populate: the interfaces of the LLDP and of the CDP
      table, and for an interface in both, the CDP entry. */
  lemma NeighborMerge(sc: Scrapers, nsc: NeighborScrapers, start: Option<map<string, Record>>,
                      responses: seq<string>, lldpDetail: seq<string>, cdpDetail: seq<string>)
    requires |responses| == 5
    ensures var r := InterfaceFacts(sc, nsc, start, responses, lldpDetail, cdpDetail);
            var lldp := LldpTable(nsc, responses[3], lldpDetail);
            var cdp := CdpTable(nsc, responses[4], cdpDetail);
            r.Ok? ==>
              && (forall k :: k in r.value.neighbors <==> k in lldp || k in cdp)
              && (forall k | k in r.value.neighbors :: r.value.neighbors[k] == if k in cdp then cdp[k] else lldp[k])
  {
    var f0 := Facts(start, [], [], map[]);
    PrimaryStageEffect(sc, f0, responses[0]);
    if PrimaryStage(sc, f0, responses[0]).Ok? {
      var f1 := PrimaryStage(sc, f0, responses[0]).value;
      AddressStageNeighbors(sc, Ipv4, f1, responses[1]);
      if AddressStage(sc, Ipv4, f1, responses[1]).Ok? {
        AddressStageNeighbors(sc, Ipv6, AddressStage(sc, Ipv4, f1, responses[1]).value, responses[2]);
      }
    }
  }

  /** An address stage never touches the neighbours. */
  lemma AddressStageNeighbors(sc: Scrapers, family: Family, f: Facts, data: string)
    ensures AddressStage(sc, family, f, data).Ok? ==> AddressStage(sc, family, f, data).value.neighbors == f.neighbors
  {
  }

  /** Interfaces.populate on a device with no "interfaces" key yet and an empty
      `show interfaces`: the first block of `show ip interface` raises KeyError. */
  lemma MissingInterfacesRaises(sc: Scrapers, nsc: NeighborScrapers, responses: seq<string>,
                                lldpDetail: seq<string>, cdpDetail: seq<string>)
    requires |responses| == 5 && responses[0] == ""
    requires Blocks(responses[1]).Ok? && exists k :: InBlocks(responses[1], k)
    ensures InterfaceFacts(sc, nsc, None, responses, lldpDetail, cdpDetail) == Err(KeyError("interfaces"))
  {
    var f := Facts(None, [], [], map[]);
    AddressStageRaises(sc, Ipv4, f, responses[1]);
  }

  /** After Interfaces.populate with a non-empty `show interfaces`, the interfaces are
      exactly the names of the blocks of the three interface commands, and every record
      is `Shaped`; each name of `show ip interface` has an `ipv4` list and each name of
      `show ipv6 interface` an `ipv6` list. */
  lemma InterfaceKeys(sc: Scrapers, nsc: NeighborScrapers, start: Option<map<string, Record>>,
                      responses: seq<string>, lldpDetail: seq<string>, cdpDetail: seq<string>)
    requires |responses| == 5 && responses[0] != ""
    ensures var r := InterfaceFacts(sc, nsc, start, responses, lldpDetail, cdpDetail);
            r.Ok? ==>
              && r.value.interfaces.Some?
              && (forall k :: k in r.value.interfaces.value <==>
                    InBlocks(responses[0], k) || InBlocks(responses[1], k) || InBlocks(responses[2], k))
              && (forall k | k in r.value.interfaces.value :: Shaped(r.value.interfaces.value[k]))
              && (forall k | InBlocks(responses[1], k) :: r.value.interfaces.value[k].ipv4.Some?)
              && (forall k | InBlocks(responses[2], k) :: r.value.interfaces.value[k].ipv6.Some?)
  {
    var f0 := Facts(start, [], [], map[]);
    PrimaryStageEffect(sc, f0, responses[0]);
    if PrimaryStage(sc, f0, responses[0]).Ok? {
      var f1 := PrimaryStage(sc, f0, responses[0]).value;
      AddressStageEffect(sc, Ipv4, f1, responses[1]);
      if AddressStage(sc, Ipv4, f1, responses[1]).Ok? {
        var f2 := AddressStage(sc, Ipv4, f1, responses[1]).value;
        AddressStageEffect(sc, Ipv6, f2, responses[2]);
      }
    }
  }

  /** Writing a key twice leaves the second value. */
  lemma UpdateTwice(m: map<string, Record>, key: string, r1: Record, r2: Record)
    ensures m[key := r1][key := r2] == m[key := r2]
  {
  }

  /** A prefix one longer is the prefix and the next element. */
  lemma PrefixNext(s: seq<Address>, j: nat)
    requires j < |s|
    ensures s[..j + 1] == s[..j] + [s[j]]
  {
  }

  /** The Interfaces collector object and its facts. */
  class InterfacesCollector {
    const scrapers: Scrapers
    const neighborScrapers: NeighborScrapers
    var interfaces: Option<map<string, Record>>
    var allIpv4: seq<string>
    var allIpv6: seq<string>
    var neighbors: map<string, seq<Neighbor>>

    function State(): Facts
      reads this
    {
      Facts(interfaces, allIpv4, allIpv6, neighbors)
    }

    /** The collector returned normally exactly when `r` is a result, and then holds it,
        or raised `r`'s error. */
    predicate Reached(r: Result<Facts>, outcome: Outcome)
      reads this
    {
      && (outcome.Pass? <==> r.Ok?)
      && (outcome.Fail? ==> r == Err(outcome.error))
      && (outcome.Pass? ==> State() == r.value)
    }

    /** A collector whose facts are still empty. */
    constructor(sc: Scrapers, nsc: NeighborScrapers)
      ensures scrapers == sc && neighborScrapers == nsc
      ensures State() == Facts(None, [], [], map[])
    {
      scrapers := sc;
      neighborScrapers := nsc;
      interfaces := None;
      allIpv4 := [];
      allIpv6 := [];
      neighbors := map[];
    }

    /** populate_interfaces: the loop over the blocks of `show interfaces`. */
    method PopulateInterfaces(blocks: Dict<string>) returns (facts: map<string, Record>)
      requires blocks.Valid()
      ensures facts == PrimaryRecords(scrapers, blocks)
      ensures forall k :: k in facts <==> k in blocks.keys
      ensures forall k :: k in facts ==> HasAllAttributes(facts[k]) && facts[k].ipv4.None? && facts[k].ipv6.None?
    {
      facts := map[];
      var i := 0;
      while i < |blocks.keys|
        invariant 0 <= i <= |blocks.keys|
        invariant forall k :: k in facts <==> k in blocks.keys[..i]
        invariant forall k :: k in facts ==> k in blocks.entries && facts[k] == PrimaryRecord(scrapers, blocks.entries[k])
      {
        var key := blocks.keys[i];
        assert blocks.keys[..i + 1] == blocks.keys[..i] + [key];
        facts := facts[key := PrimaryRecord(scrapers, blocks.entries[key])];
        i := i + 1;
      }
      assert blocks.keys[..i] == blocks.keys;
    }

    /** add_ip_address: "ipv4" goes to the IPv4 list, any other family to the IPv6 list. */
    method AddIpAddress(address: string, family: string)
      modifies this
      ensures family == "ipv4" ==> allIpv4 == old(allIpv4) + [address] && allIpv6 == old(allIpv6)
      ensures family != "ipv4" ==> allIpv6 == old(allIpv6) + [address] && allIpv4 == old(allIpv4)
      ensures interfaces == old(interfaces) && neighbors == old(neighbors)
    {
      if family == "ipv4" {
        allIpv4 := allIpv4 + [address];
      } else {
        allIpv6 := allIpv6 + [address];
      }
    }

    /** parse_deleted_status: only a status of exactly "deleted" is copied into the record. */
    method ParseDeletedStatus(key: string, block: string)
      requires interfaces.Some? && key in interfaces.value
      modifies this
      ensures interfaces == Some(old(interfaces.value)[key := BackfillDeleted(scrapers, old(interfaces.value[key]), block)])
      ensures allIpv4 == old(allIpv4) && allIpv6 == old(allIpv6) && neighbors == old(neighbors)
    {
      var status := scrapers(Block(block)).operstatus;
      if status == Some("deleted") {
        var recs := interfaces.value;
        interfaces := Some(recs[key := recs[key].(operstatus := Present(status))]);
      } else {
        assert interfaces.value[key := interfaces.value[key]] == interfaces.value;
      }
    }

    /** One address of a pass: add_ip_address, then the append to the interface's list. */
    method AppendAddress(key: string, family: Family, a: Address)
      requires interfaces.Some? && key in interfaces.value && ListOf(interfaces.value[key], family).Some?
      modifies this
      ensures var rec := old(interfaces.value[key]);
              interfaces == Some(old(interfaces.value)[key := WithList(rec, family, ListOf(rec, family).value + [a])])
      ensures GlobalList(State(), family) == old(GlobalList(State(), family)) + [a.address]
      ensures GlobalList(State(), OtherFamily(family)) == old(GlobalList(State(), OtherFamily(family)))
      ensures neighbors == old(neighbors)
    {
      AddIpAddress(a.address, if family == Ipv4 then "ipv4" else "ipv6");
      var recs := interfaces.value;
      interfaces := Some(recs[key := WithList(recs[key], family, ListOf(recs[key], family).value + [a])]);
    }

    /** One turn of an address loop: the interface's list and the family's global list,
        both built from `es` so far, grow by `a`. */
    method AppendListed(key: string, family: Family, ghost recs0: map<string, Record>, ghost rec0: Record,
                        ghost all0: seq<string>, ghost es: seq<Address>, a: Address)
      requires interfaces == Some(recs0[key := WithList(rec0, family, es)])
      requires GlobalList(State(), family) == all0 + AddressesOf(es)
      modifies this
      ensures interfaces == Some(recs0[key := WithList(rec0, family, es + [a])])
      ensures GlobalList(State(), family) == all0 + AddressesOf(es + [a])
      ensures GlobalList(State(), OtherFamily(family)) == old(GlobalList(State(), OtherFamily(family)))
      ensures neighbors == old(neighbors)
    {
      assert ListOf(WithList(rec0, family, es), family) == Some(es) by {
        match family
        case Ipv4 =>
        case Ipv6 =>
      }
      AppendAddress(key, family, a);
      assert WithList(WithList(rec0, family, es), family, es + [a]) == WithList(rec0, family, es + [a]) by {
        match family
        case Ipv4 =>
        case Ipv6 =>
      }
      UpdateTwice(recs0, key, WithList(rec0, family, es), WithList(rec0, family, es + [a]));
      AddressesOfSnoc(es, a);
    }

    /** The `try`/`except KeyError` at the head of each address pass: reset the
        interface's list, or create the interface with an empty list and back-fill its
        "deleted" status. Without an "interfaces" key the `except` branch raises again. */
    method ResetList(key: string, block: string, family: Family) returns (outcome: Outcome)
      modifies this
      ensures old(interfaces).None? ==> outcome == Fail(KeyError("interfaces")) && interfaces == old(interfaces)
      ensures old(interfaces).Some? ==>
                outcome == Pass &&
                interfaces == Some(old(interfaces.value)[key := WithList(AddressBase(scrapers, old(interfaces.value), key, block), family, [])])
      ensures allIpv4 == old(allIpv4) && allIpv6 == old(allIpv6) && neighbors == old(neighbors)
    {
      if interfaces.None? {
        return Fail(KeyError("interfaces"));
      }
      var recs := interfaces.value;
      if key in recs {
        interfaces := Some(recs[key := WithList(recs[key], family, [])]);
      } else {
        var blank := WithList(Created, family, []);
        interfaces := Some(recs[key := blank]);
        ParseDeletedStatus(key, block);
        assert recs[key := blank][key := BackfillDeleted(scrapers, blank, block)]
            == recs[key := BackfillDeleted(scrapers, blank, block)];
        assert BackfillDeleted(scrapers, WithList(Created, family, []), block)
            == WithList(BackfillDeleted(scrapers, Created, block), family, []) by {
          match family
          case Ipv4 =>
          case Ipv6 =>
        }
      }
      outcome := Pass;
    }

    /** The records and the family's global list are where a pass over some blocks (or
        its step on one block) says, or the collector raised the error it gives. */
    predicate PassReached(family: Family, r: Result<(map<string, Record>, seq<string>)>, outcome: Outcome)
      reads this
    {
      && (outcome.Pass? <==> r.Ok?)
      && (outcome.Fail? ==> r == Err(outcome.error))
      && (outcome.Pass? ==> interfaces == Some(r.value.0) && GlobalList(State(), family) == r.value.1)
    }

    /** The pass's step on one block left the collector where `AddressStep` says, or
        raised the error `AddressStep` gives. */
    predicate Stepped(family: Family, recs0: map<string, Record>, all0: seq<string>, key: string, block: string,
                      outcome: Outcome)
      reads this
    {
      PassReached(family, AddressStep(scrapers, family, ReaderOf(scrapers, family), recs0, all0, key, block), outcome)
    }

    /** The inner loop of populate_ipv4_interfaces: each address is parsed (split at '/',
        `ParseIpv4Address`) and, unless that raises, recorded in the global list and
        appended to the interface's list. The parser is a parameter so that the loop's
        proof does not depend on how an address is split. */
    method RecordIpv4Addresses(key: string, addresses: seq<string>, parse: string -> Result<Address>) returns (outcome: Outcome)
      requires interfaces.Some? && key in interfaces.value && interfaces.value[key].ipv4 == Some([])
      modifies this
      ensures var r := ParseEach(parse, addresses);
              && (outcome.Pass? <==> r.Ok?)
              && (outcome.Fail? ==> r == Err(outcome.error))
              && (outcome.Pass? ==>
                    && interfaces == Some(old(interfaces.value)[key := old(interfaces.value[key]).(ipv4 := Some(r.value))])
                    && allIpv4 == old(allIpv4) + AddressesOf(r.value))
      ensures allIpv6 == old(allIpv6) && neighbors == old(neighbors)
    {
      ghost var recs0, rec0, all0 := interfaces.value, interfaces.value[key], allIpv4;
      ghost var es: seq<Address> := [];
      assert recs0[key := WithList(rec0, Ipv4, es)] == recs0;
      var j := 0;
      while j < |addresses|
        invariant 0 <= j <= |addresses|
        invariant ParseEach(parse, addresses[..j]) == Ok(es)
        invariant interfaces == Some(recs0[key := WithList(rec0, Ipv4, es)])
        invariant allIpv4 == all0 + AddressesOf(es)
        invariant allIpv6 == old(allIpv6) && neighbors == old(neighbors)
      {
        assert addresses[..j + 1] == addresses[..j] + [addresses[j]];
        ParseEachSnoc(parse, addresses[..j], addresses[j]);
        var parsed := parse(addresses[j]);
        if parsed.Err? {
          ParseEachSticks(parse, addresses, j + 1);
          return Fail(parsed.error);
        }
        var a := parsed.value;
        AppendListed(key, Ipv4, recs0, rec0, all0, es, a);
        es := es + [a];
        j := j + 1;
      }
      assert addresses[..j] == addresses;
      outcome := Pass;
    }

    /** The body of populate_ipv4_interfaces for one block: reset the list, then read the
        secondary addresses and after them the first primary one, if there is one. */
    method RefreshIpv4(key: string, block: string) returns (outcome: Outcome)
      modifies this
      ensures old(interfaces).None? ==> outcome == Fail(KeyError("interfaces"))
      ensures old(interfaces).Some? ==> Stepped(Ipv4, old(interfaces.value), old(allIpv4), key, block, outcome)
      ensures allIpv6 == old(allIpv6) && neighbors == old(neighbors)
    {
      ghost var recs0, all0 := interfaces, allIpv4;
      outcome := ResetList(key, block, Ipv4);
      if outcome.Fail? {
        return;
      }
      ghost var base := AddressBase(scrapers, recs0.value, key, block);
      ghost var recs1 := interfaces.value;
      var primary := scrapers(Block(block)).ipv4Primary;
      var addresses := if |primary| == 0 then [] else scrapers(Block(block)).ipv4Secondary + [primary[0]];
      assert addresses == Ipv4Lines(scrapers, block);
      outcome := RecordIpv4Addresses(key, addresses, ParseIpv4Address);
      assert Entries(scrapers, Ipv4, block) == ParseEach(ParseIpv4Address, addresses);
      if outcome.Pass? {
        var es := ParseEach(ParseIpv4Address, addresses).value;
        assert recs1[key].(ipv4 := Some(es)) == WithList(base, Ipv4, es);
        assert recs1[key := WithList(base, Ipv4, es)] == recs0.value[key := WithList(base, Ipv4, es)];
        assert AddressStep(scrapers, Ipv4, ReaderOf(scrapers, Ipv4), recs0.value, all0, key, block)
            == Ok((recs0.value[key := WithList(base, Ipv4, es)], all0 + AddressesOf(es)));
        assert interfaces == Some(recs0.value[key := WithList(base, Ipv4, es)]);
      }
    }

    /** The inner loop of populate_ipv6_interfaces: the addresses and subnets are paired
        as `zip` pairs them, and each pair is recorded in the global list and appended to
        the interface's list. */
    method RecordIpv6Pairs(key: string, addresses: seq<string>, subnets: seq<string>)
      requires interfaces.Some? && key in interfaces.value && interfaces.value[key].ipv6 == Some([])
      modifies this
      ensures var es := Ipv6Pairs(addresses, subnets);
              && interfaces == Some(old(interfaces.value)[key := old(interfaces.value[key]).(ipv6 := Some(es))])
              && allIpv6 == old(allIpv6) + AddressesOf(es)
      ensures allIpv4 == old(allIpv4) && neighbors == old(neighbors)
    {
      ghost var recs0, rec0, all0 := interfaces.value, interfaces.value[key], allIpv6;
      ghost var es: seq<Address> := [];
      assert recs0[key := WithList(rec0, Ipv6, es)] == recs0;
      ghost var pairs := Ipv6Pairs(addresses, subnets);
      var n := if |addresses| < |subnets| then |addresses| else |subnets|;
      assert n == |pairs| by { Ipv6Pairing(addresses, subnets); }
      var j := 0;
      while j < n
        invariant 0 <= j <= n == |pairs|
        invariant es == pairs[..j]
        invariant interfaces == Some(recs0[key := WithList(rec0, Ipv6, es)])
        invariant allIpv6 == all0 + AddressesOf(es)
        invariant allIpv4 == old(allIpv4) && neighbors == old(neighbors)
      {
        var a := Address(Strip(addresses[j]), Strip(subnets[j]));
        Ipv6PairAt(addresses, subnets, j);
        AppendListed(key, Ipv6, recs0, rec0, all0, es, a);
        PrefixNext(pairs, j);
        es := es + [a];
        j := j + 1;
      }
      assert es == pairs;
      assert WithList(rec0, Ipv6, es) == rec0.(ipv6 := Some(es));
    }

    /** The body of populate_ipv6_interfaces for one block: reset the list, then pair the
        address lines with the "subnet is" lines. */
    method RefreshIpv6(key: string, block: string) returns (outcome: Outcome)
      modifies this
      ensures old(interfaces).None? ==> outcome == Fail(KeyError("interfaces"))
      ensures old(interfaces).Some? ==> Stepped(Ipv6, old(interfaces.value), old(allIpv6), key, block, outcome)
      ensures allIpv4 == old(allIpv4) && neighbors == old(neighbors)
    {
      ghost var recs0, all0 := interfaces, allIpv6;
      outcome := ResetList(key, block, Ipv6);
      if outcome.Fail? {
        return;
      }
      ghost var base := AddressBase(scrapers, recs0.value, key, block);
      ghost var recs1 := interfaces.value;
      var addresses := scrapers(Block(block)).ipv6Addresses;
      var subnets := scrapers(Block(block)).ipv6Subnets;
      RecordIpv6Pairs(key, addresses, subnets);
      var es := Ipv6Pairs(addresses, subnets);
      assert Entries(scrapers, Ipv6, block) == Ok(es);
      assert recs1[key].(ipv6 := Some(es)) == WithList(base, Ipv6, es);
      assert recs1[key := WithList(base, Ipv6, es)] == recs0.value[key := WithList(base, Ipv6, es)];
      assert AddressStep(scrapers, Ipv6, ReaderOf(scrapers, Ipv6), recs0.value, all0, key, block)
          == Ok((recs0.value[key := WithList(base, Ipv6, es)], all0 + AddressesOf(es)));
      assert interfaces == Some(recs0.value[key := WithList(base, Ipv6, es)]);
      assert allIpv6 == all0 + AddressesOf(es);
    }

    /** One block of populate_ipv4_interfaces (Ipv4) or populate_ipv6_interfaces (Ipv6). */
    method Refresh(family: Family, key: string, block: string) returns (outcome: Outcome)
      modifies this
      ensures old(interfaces).None? ==> outcome == Fail(KeyError("interfaces"))
      ensures old(interfaces).Some? ==>
                Stepped(family, old(interfaces.value), GlobalList(old(State()), family), key, block, outcome)
      ensures GlobalList(State(), OtherFamily(family)) == GlobalList(old(State()), OtherFamily(family))
      ensures neighbors == old(neighbors)
    {
      if family == Ipv4 {
        outcome := RefreshIpv4(key, block);
      } else {
        outcome := RefreshIpv6(key, block);
      }
    }

    /** One turn of the loop over the blocks: the pass over one more key. */
    method PassOne(family: Family, ghost recs0: map<string, Record>, ghost all0: seq<string>,
                   keys: seq<string>, entries: map<string, string>, i: nat) returns (outcome: Outcome)
      requires (forall k :: k in keys ==> k in entries) && i < |keys|
      requires PassReached(family, AddressPass(scrapers, family, ReaderOf(scrapers, family), recs0, all0, keys[..i], entries), Pass)
      modifies this
      ensures PassReached(family, AddressPass(scrapers, family, ReaderOf(scrapers, family), recs0, all0, keys[..i + 1], entries), outcome)
      ensures GlobalList(State(), OtherFamily(family)) == GlobalList(old(State()), OtherFamily(family))
      ensures neighbors == old(neighbors)
    {
      AddressPassNext(scrapers, family, ReaderOf(scrapers, family), recs0, all0, keys, entries, i);
      outcome := Refresh(family, keys[i], entries[keys[i]]);
    }

    /** The loop over the blocks, in the order parse_interfaces found them, once the
        "interfaces" key is there: the pass `AddressPass` describes. */
    method PassBlocks(family: Family, blocks: Dict<string>) returns (outcome: Outcome)
      requires blocks.Valid() && interfaces.Some?
      modifies this
      ensures PassReached(family, AddressPass(scrapers, family, ReaderOf(scrapers, family), old(interfaces.value),
                                              GlobalList(old(State()), family), blocks.keys, blocks.entries), outcome)
      ensures GlobalList(State(), OtherFamily(family)) == GlobalList(old(State()), OtherFamily(family))
      ensures neighbors == old(neighbors)
    {
      ghost var recs0, all0 := interfaces.value, GlobalList(State(), family);
      var i := 0;
      while i < |blocks.keys|
        invariant 0 <= i <= |blocks.keys|
        invariant PassReached(family, AddressPass(scrapers, family, ReaderOf(scrapers, family), recs0, all0, blocks.keys[..i], blocks.entries), Pass)
        invariant GlobalList(State(), OtherFamily(family)) == GlobalList(old(State()), OtherFamily(family))
        invariant neighbors == old(neighbors)
      {
        outcome := PassOne(family, recs0, all0, blocks.keys, blocks.entries, i);
        if outcome.Fail? {
          AddressPassSticks(scrapers, family, ReaderOf(scrapers, family), recs0, all0, blocks.keys, blocks.entries, i + 1);
          return;
        }
        i := i + 1;
      }
      assert blocks.keys[..i] == blocks.keys;
      outcome := Pass;
    }

    /** populate_ipv4_interfaces (family Ipv4) and populate_ipv6_interfaces (Ipv6): without
        the "interfaces" key the first block raises KeyError. */
    method PopulateAddresses(family: Family, blocks: Dict<string>) returns (outcome: Outcome)
      requires blocks.Valid()
      modifies this
      ensures Reached(AddressFacts(scrapers, family, old(State()), blocks), outcome)
    {
      if interfaces.None? {
        if |blocks.keys| == 0 {
          return Pass;
        }
        var key := blocks.keys[0];
        outcome := Refresh(family, key, blocks.entries[key]);
        return;
      }
      outcome := PassBlocks(family, blocks);
    }

    /** The `show interfaces` part of Interfaces.populate. */
    method ReadInterfaces(data: string) returns (outcome: Outcome)
      modifies this
      ensures Reached(PrimaryStage(scrapers, old(State()), data), outcome)
    {
      if data != "" {
        var parsed := ParseInterfaces(data);
        if parsed.Err? {
          return Fail(parsed.error);
        }
        var facts := PopulateInterfaces(parsed.value);
        interfaces := Some(facts);
      }
      outcome := Pass;
    }

    /** The `show ip interface` (Ipv4) or `show ipv6 interface` (Ipv6) part of
        Interfaces.populate. */
    method ReadAddresses(family: Family, data: string) returns (outcome: Outcome)
      modifies this
      ensures Reached(AddressStage(scrapers, family, old(State()), data), outcome)
    {
      outcome := Pass;
      if data != "" {
        var parsed := ParseInterfaces(data);
        if parsed.Err? {
          return Fail(parsed.error);
        }
        outcome := PopulateAddresses(family, parsed.value);
      }
    }

    /** The neighbour part of Interfaces.populate: each protocol's gate, then its table
        merged into the neighbours. */
    method ReadNeighbors(lldpShow: string, lldpDetail: seq<string>, cdpShow: string, cdpDetail: seq<string>)
      modifies this
      ensures State() == NeighborStage(neighborScrapers, old(State()), lldpShow, lldpDetail, cdpShow, cdpDetail)
    {
      if LldpGate(lldpShow) && |lldpDetail| > 0 {
        var table := ParseNeighbors(neighborScrapers, Lldp, lldpDetail[0]);
        neighbors := neighbors + table;
      }
      assert neighbors == old(neighbors) + LldpTable(neighborScrapers, lldpShow, lldpDetail);
      if CdpGate(cdpShow) && |cdpDetail| > 0 {
        var table := ParseNeighbors(neighborScrapers, Cdp, cdpDetail[0]);
        neighbors := neighbors + table;
      }
      assert neighbors == old(neighbors) + LldpTable(neighborScrapers, lldpShow, lldpDetail)
                                         + CdpTable(neighborScrapers, cdpShow, cdpDetail);
    }

    /** Interfaces.populate: the five command outputs in turn, then the neighbour tables,
        CDP's entries replacing LLDP's for the same interface. */
    method Populate(responses: seq<string>, lldpDetail: seq<string>, cdpDetail: seq<string>) returns (outcome: Outcome)
      requires |responses| == 5
      modifies this
      ensures Reached(InterfaceFacts(scrapers, neighborScrapers, old(interfaces), responses, lldpDetail, cdpDetail), outcome)
    {
      allIpv4 := [];
      allIpv6 := [];
      neighbors := map[];
      outcome := ReadInterfaces(responses[0]);
      if outcome.Fail? {
        return;
      }
      outcome := ReadAddresses(Ipv4, responses[1]);
      if outcome.Fail? {
        return;
      }
      outcome := ReadAddresses(Ipv6, responses[2]);
      if outcome.Fail? {
        return;
      }
      ReadNeighbors(responses[3], lldpDetail, responses[4], cdpDetail);
    }
  }
}
