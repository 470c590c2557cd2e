/** The per-interface records of the Interfaces collector (`facts["interfaces"][name]`)
    and what the IPv4 and IPv6 passes do to them, as functions of the blocks they read.

    The single-regex field scrapers of the source are not modelled as regular
    expressions: a `Scrapers` function gives, for a block of text, what all of them
    return (a group or None each, a list for the `findall` ones). */
module InterfaceRecords {
  import opened Basics
  import opened Text
  import opened OrderedDict

  /** One `{address, subnet}` entry of an `ipv4` or `ipv6` list. */
  datatype Address = Address(address: string, subnet: string)

  /** The dictionary of one interface. The primary pass writes the nine attribute keys;
      the address passes add the `ipv4` and `ipv6` lists. */
  datatype Record = Record(
    description: Slot<string>,
    macaddress: Slot<string>,
    mtu: Slot<int>,
    bandwidth: Slot<int>,
    mediatype: Slot<string>,
    duplex: Slot<string>,
    lineprotocol: Slot<string>,
    operstatus: Slot<string>,
    hardwareType: Slot<string>,
    ipv4: Option<seq<Address>>,
    ipv6: Option<seq<Address>>)

  /** What the per-field regex searches return for one block: parse_description,
      parse_macaddress, parse_mtu, parse_bandwidth, parse_mediatype, parse_duplex,
      parse_lineprotocol, parse_operstatus, parse_type (a group or None each), and the
      `findall`s of the address passes ("Internet address is", "Secondary address", the
      IPv6 address lines and their "subnet is" lines). */
  datatype BlockFields = BlockFields(
    description: Option<string>,
    macaddress: Option<string>,
    mtu: Option<int>,
    bandwidth: Option<int>,
    mediatype: Option<string>,
    duplex: Option<string>,
    lineprotocol: Option<string>,
    operstatus: Option<string>,
    hardwareType: Option<string>,
    ipv4Primary: seq<string>,
    ipv4Secondary: seq<string>,
    ipv6Addresses: seq<string>,
    ipv6Subnets: seq<string>)

  /** A block of `show interfaces` (or `show ip interface`, `show ipv6 interface`) text,
      as the searches receive it; the wrapper gives them an argument type of their own. */
  datatype Block = Block(text: string)

  /** The searches, as one function of the block they read. */
  type Scrapers = Block -> BlockFields

  datatype Family = Ipv4 | Ipv6

  /** The record populate_interfaces writes for one block of `show interfaces`. */
  function PrimaryRecord(sc: Scrapers, block: string): Record
  {
    Record(
      Present(sc(Block(block)).description), Present(sc(Block(block)).macaddress),
      Present(sc(Block(block)).mtu), Present(sc(Block(block)).bandwidth),
      Present(sc(Block(block)).mediatype), Present(sc(Block(block)).duplex),
      Present(sc(Block(block)).lineprotocol), Present(sc(Block(block)).operstatus),
      Present(sc(Block(block)).hardwareType), None, None)
  }

  /** All nine attribute keys are present (each holding a value or None). */
  predicate HasAllAttributes(r: Record)
  {
    && r.description.Present? && r.macaddress.Present? && r.mtu.Present?
    && r.bandwidth.Present? && r.mediatype.Present? && r.duplex.Present?
    && r.lineprotocol.Present? && r.operstatus.Present? && r.hardwareType.Present?
  }

  /** No attribute key at all. */
  predicate HasNoAttributes(r: Record)
  {
    && r.description.Absent? && r.macaddress.Absent? && r.mtu.Absent?
    && r.bandwidth.Absent? && r.mediatype.Absent? && r.duplex.Absent?
    && r.lineprotocol.Absent? && r.hardwareType.Absent?
    && r.operstatus.Absent?
  }

  /** `dict()`: a record created by an address pass. */
  const Created: Record :=
    Record(Absent, Absent, Absent, Absent, Absent, Absent, Absent, Absent, Absent, None, None)

  /** parse_deleted_status on a record: operstatus is set only when the block's own
      status reads exactly "deleted". */
  function BackfillDeleted(sc: Scrapers, r: Record, block: string): Record
  {
    if sc(Block(block)).operstatus == Some("deleted") then r.(operstatus := Present(Some("deleted"))) else r
  }

  /** The record an address pass starts from for `key` before filling its list. */
  function AddressBase(sc: Scrapers, recs: map<string, Record>, key: string, block: string): Record
  {
    if key in recs then recs[key] else BackfillDeleted(sc, Created, block)
  }

  // ---------------------------------------------------------------------------
  // IPv4 addresses

  /** `addr, subnet = address.split("/")` and the two `strip()`s: a ValueError unless the
      split gives exactly two pieces. */
  function ParseIpv4Address(address: string): Result<Address>
  {
    var parts := Split(address, "/");
    if |parts| != 2 then Err(ValueError(address)) else Ok(Address(Strip(parts[0]), Strip(parts[1])))
  }

  /** Splitting on '/' gives two pieces exactly when there is one '/', and then they are
      the texts before and after it. */
  lemma SlashSplit(x: string)
    ensures |Split(x, "/")| == 2 <==> CountChar(x, '/') == 1
    ensures CountChar(x, '/') == 1 ==>
              var i := IndexOfChar(x, '/');
              Split(x, "/") == [x[..i], x[i + 1..]]
  {
    var slash: string := ['/'];
    assert "/" == slash;
    SplitOnChar(x, '/');
    if CountChar(x, '/') == 1 {
      SplitAtOnly(x, '/');
    }
  }

  /** An IPv4 address line parses exactly when it holds one '/', into the stripped texts
      before and after it. */
  lemma Ipv4AddressMeaning(x: string)
    ensures ParseIpv4Address(x).Ok? <==> CountChar(x, '/') == 1
    ensures CountChar(x, '/') == 1 ==>
              var i := IndexOfChar(x, '/');
              ParseIpv4Address(x) == Ok(Address(Strip(x[..i]), Strip(x[i + 1..])))
  {
    SlashSplit(x);
    CountAfterFirst(x, '/');
    var parts := Split(x, "/");
    if CountChar(x, '/') == 1 {
      var i := IndexOfChar(x, '/');
      assert parts[0] == x[..i] && parts[1] == x[i + 1..];
      assert ParseIpv4Address(x) == Ok(Address(Strip(parts[0]), Strip(parts[1])));
    } else {
      assert |parts| != 2;
    }
  }

  /** The addresses of a list parsed in order; the first bad one raises. */
  function ParseEach(parse: string -> Result<Address>, xs: seq<string>): Result<seq<Address>>
  {
    if xs == [] then Ok([])
    else
      match ParseEach(parse, xs[..|xs| - 1])
      case Err(e) => Err(e)
      case Ok(es) =>
        match parse(xs[|xs| - 1])
        case Err(e) => Err(e)
        case Ok(a) => Ok(es + [a])
  }

  /** Once an address has raised, the later ones change nothing. */
  lemma {:induction false} ParseEachSticks(parse: string -> Result<Address>, xs: seq<string>, j: nat)
    requires j <= |xs| && ParseEach(parse, xs[..j]).Err?
    ensures ParseEach(parse, xs) == ParseEach(parse, xs[..j])
    decreases |xs|
  {
    if j < |xs| {
      var init := xs[..|xs| - 1];
      assert init[..j] == xs[..j];
      ParseEachSticks(parse, init, j);
    } else {
      assert xs[..j] == xs;
    }
  }

  /** The list of parsed addresses keeps the order of the lines, one entry per line, and
      the pass raises exactly when one of the lines does not split into two pieces. */
  lemma {:induction false} ParseEachPointwise(parse: string -> Result<Address>, xs: seq<string>)
    ensures ParseEach(parse, xs).Ok? <==> forall k :: 0 <= k < |xs| ==> parse(xs[k]).Ok?
    ensures ParseEach(parse, xs).Ok? ==>
              |ParseEach(parse, xs).value| == |xs| &&
              forall k :: 0 <= k < |xs| ==> parse(xs[k]) == Ok(ParseEach(parse, xs).value[k])
  {
    if xs != [] {
      var n := |xs| - 1;
      var init := xs[..n];
      ParseEachPointwise(parse, init);
      forall k | 0 <= k < n ensures xs[k] == init[k] { }
      match ParseEach(parse, init)
      case Err(_) =>
        var k :| 0 <= k < n && !parse(init[k]).Ok?;
        assert !parse(xs[k]).Ok?;
      case Ok(es) =>
        match parse(xs[n])
        case Err(_) =>
        case Ok(a) =>
          var all := es + [a];
          assert ParseEach(parse, xs) == Ok(all);
          forall k | 0 <= k < |xs| ensures parse(xs[k]) == Ok(all[k]) {
            if k < n {
              assert all[k] == es[k];
            }
          }
    }
  }

  /** The addresses populate_ipv4_interfaces reads from a block: the secondary ones first,
      then the first primary one; none when there is no "Internet address is" line. */
  function Ipv4Lines(sc: Scrapers, block: string): seq<string>
  {
    var primary := sc(Block(block)).ipv4Primary;
    if |primary| == 0 then [] else sc(Block(block)).ipv4Secondary + [primary[0]]
  }

  /** What populate_ipv4_interfaces stores for one block: nothing when there is no
      "Internet address is" line; otherwise it raises exactly when one of its address lines
      does not hold exactly one '/', and else lists, line by line, the stripped texts before
      and after the '/'. */
  lemma Ipv4Entries(sc: Scrapers, block: string)
    ensures sc(Block(block)).ipv4Primary == [] ==> Entries(sc, Ipv4, block) == Ok([])
    ensures var lines := Ipv4Lines(sc, block);
            Entries(sc, Ipv4, block).Ok? <==> forall k :: 0 <= k < |lines| ==> CountChar(lines[k], '/') == 1
    ensures var lines := Ipv4Lines(sc, block);
            var r := Entries(sc, Ipv4, block);
            r.Ok? ==>
              && |r.value| == |lines|
              && forall k :: 0 <= k < |lines| ==>
                   var i := IndexOfChar(lines[k], '/');
                   r.value[k] == Address(Strip(lines[k][..i]), Strip(lines[k][i + 1..]))
  {
    var lines := Ipv4Lines(sc, block);
    ParseEachPointwise(ParseIpv4Address, lines);
    forall k | 0 <= k < |lines|
      ensures ParseIpv4Address(lines[k]).Ok? <==> CountChar(lines[k], '/') == 1
    {
      Ipv4AddressMeaning(lines[k]);
    }
    var r := Entries(sc, Ipv4, block);
    if r.Ok? {
      forall k | 0 <= k < |lines|
        ensures var i := IndexOfChar(lines[k], '/');
                r.value[k] == Address(Strip(lines[k][..i]), Strip(lines[k][i + 1..]))
      {
        Ipv4AddressMeaning(lines[k]);
      }
    }
  }

  // ---------------------------------------------------------------------------
  // IPv6 addresses

  /** `zip(addresses, subnets)` with both members stripped. */
  function Ipv6Pairs(addresses: seq<string>, subnets: seq<string>): seq<Address>
  {
    if addresses == [] || subnets == [] then []
    else [Address(Strip(addresses[0]), Strip(subnets[0]))] + Ipv6Pairs(addresses[1..], subnets[1..])
  }

  /** The k-th address goes with the k-th subnet, and `zip` stops at the shorter list. */
  lemma {:induction false} Ipv6Pairing(addresses: seq<string>, subnets: seq<string>)
    ensures |Ipv6Pairs(addresses, subnets)| == if |addresses| < |subnets| then |addresses| else |subnets|
    ensures forall k :: 0 <= k < |Ipv6Pairs(addresses, subnets)| ==>
              Ipv6Pairs(addresses, subnets)[k] == Address(Strip(addresses[k]), Strip(subnets[k]))
  {
    if addresses != [] && subnets != [] {
      Ipv6Pairing(addresses[1..], subnets[1..]);
    }
  }

  /** One pair of `Ipv6Pairs`, for a loop that builds them in order. */
  lemma Ipv6PairAt(addresses: seq<string>, subnets: seq<string>, j: nat)
    requires j < |addresses| && j < |subnets|
    ensures j < |Ipv6Pairs(addresses, subnets)|
    ensures Ipv6Pairs(addresses, subnets)[j] == Address(Strip(addresses[j]), Strip(subnets[j]))
  {
    Ipv6Pairing(addresses, subnets);
  }

  // ---------------------------------------------------------------------------
  // One address pass over the blocks of `show ip interface` or `show ipv6 interface`

  /** Parsing one more address: the list grows by it, or its error is raised, or an
      earlier error stays. */
  lemma ParseEachSnoc(parse: string -> Result<Address>, xs: seq<string>, x: string)
    ensures ParseEach(parse, xs + [x]) ==
            match ParseEach(parse, xs)
            case Err(e) => Err(e)
            case Ok(es) => (match parse(x) case Err(e) => Err(e) case Ok(a) => Ok(es + [a]))
  {
    assert (xs + [x])[..|xs|] == xs;
  }

  /** The addresses of a list with one more entry. */
  lemma AddressesOfSnoc(es: seq<Address>, a: Address)
    ensures AddressesOf(es + [a]) == AddressesOf(es) + [a.address]
  {
    assert (es + [a])[..|es|] == es;
  }

  /** The list an address pass stores for one block, or the error it raises. The pass
      below reads each block through it, as `ReaderOf` gives it. */
  function Entries(sc: Scrapers, family: Family, block: string): Result<seq<Address>>
  {
    match family
    case Ipv4 => ParseEach(ParseIpv4Address, Ipv4Lines(sc, block))
    case Ipv6 => Ok(Ipv6Pairs(sc(Block(block)).ipv6Addresses, sc(Block(block)).ipv6Subnets))
  }

  /** How a pass reads the list of one block. */
  type Reader = Block -> Result<seq<Address>>

  /** The reader of the address passes: `Entries` on the block's text. */
  function ReaderOf(sc: Scrapers, family: Family): Reader
  {
    (b: Block) => Entries(sc, family, b.text)
  }

  function ListOf(r: Record, family: Family): Option<seq<Address>>
  {
    match family
    case Ipv4 => r.ipv4
    case Ipv6 => r.ipv6
  }

  function WithList(r: Record, family: Family, es: seq<Address>): Record
  {
    match family
    case Ipv4 => r.(ipv4 := Some(es))
    case Ipv6 => r.(ipv6 := Some(es))
  }

  /** The `address` members of a list, in order. */
  function AddressesOf(es: seq<Address>): seq<string>
  {
    if es == [] then [] else AddressesOf(es[..|es| - 1]) + [es[|es| - 1].address]
  }

  /** The pass's work on one block: reset (or create) the record's list, fill it, and
      append the same addresses to the global list. */
  function AddressStep(sc: Scrapers, family: Family, read: Reader, recs: map<string, Record>, all: seq<string>,
                       key: string, block: string): Result<(map<string, Record>, seq<string>)>
  {
    match read(Block(block))
    case Err(e) => Err(e)
    case Ok(es) => Ok((recs[key := WithList(AddressBase(sc, recs, key, block), family, es)], all + AddressesOf(es)))
  }

  /** The pass over the blocks in key order. */
  function AddressPass(sc: Scrapers, family: Family, read: Reader, recs: map<string, Record>, all: seq<string>,
                       keys: seq<string>, blocks: map<string, string>): Result<(map<string, Record>, seq<string>)>
    requires forall k :: k in keys ==> k in blocks
  {
    if keys == [] then Ok((recs, all))
    else
      var key := keys[|keys| - 1];
      match AddressPass(sc, family, read, recs, all, keys[..|keys| - 1], blocks)
      case Err(e) => Err(e)
      case Ok(st) => AddressStep(sc, family, read, st.0, st.1, key, blocks[key])
  }

  /** The pass over one more key of the same sequence: its step on that key's block. */
  lemma AddressPassNext(sc: Scrapers, family: Family, read: Reader, recs: map<string, Record>, all: seq<string>,
                        keys: seq<string>, blocks: map<string, string>, i: nat)
    requires forall k :: k in keys ==> k in blocks
    requires i < |keys| && AddressPass(sc, family, read, recs, all, keys[..i], blocks).Ok?
    ensures var st := AddressPass(sc, family, read, recs, all, keys[..i], blocks).value;
            AddressPass(sc, family, read, recs, all, keys[..i + 1], blocks) ==
              AddressStep(sc, family, read, st.0, st.1, keys[i], blocks[keys[i]])
  {
    var next := keys[..i + 1];
    assert next[..|next| - 1] == keys[..i] && next[|next| - 1] == keys[i];
  }

  /** Once a block has raised, the later blocks change nothing. */
  lemma {:induction false} AddressPassSticks(sc: Scrapers, family: Family, read: Reader, recs: map<string, Record>, all: seq<string>,
                                             keys: seq<string>, blocks: map<string, string>, j: nat)
    requires forall k :: k in keys ==> k in blocks
    requires j <= |keys| && AddressPass(sc, family, read, recs, all, keys[..j], blocks).Err?
    ensures AddressPass(sc, family, read, recs, all, keys, blocks) == AddressPass(sc, family, read, recs, all, keys[..j], blocks)
    decreases |keys|
  {
    if j < |keys| {
      var init := keys[..|keys| - 1];
      assert init[..j] == keys[..j];
      AddressPassSticks(sc, family, read, recs, all, init, blocks, j);
    } else {
      assert keys[..j] == keys;
    }
  }

  /** The addresses of the lists of `keys`, one list after another in key order. */
  function Flatten(recs: map<string, Record>, family: Family, keys: seq<string>): seq<string>
    requires forall k :: k in keys ==> k in recs && ListOf(recs[k], family).Some?
  {
    if keys == [] then []
    else
      var key := keys[|keys| - 1];
      Flatten(recs, family, keys[..|keys| - 1]) + AddressesOf(ListOf(recs[key], family).value)
  }

  lemma {:induction false} FlattenFrame(recs: map<string, Record>, family: Family, keys: seq<string>, key: string, r: Record)
    requires forall k :: k in keys ==> k in recs && ListOf(recs[k], family).Some?
    requires key !in keys
    ensures Flatten(recs[key := r], family, keys) == Flatten(recs, family, keys)
  {
    if keys != [] {
      FlattenFrame(recs, family, keys[..|keys| - 1], key, r);
    }
  }

  /** The records after a pass over `keys`, from `recs`: every interface of `keys`
      holds the list parsed from its block, on its earlier record or on a record created
      for it (operstatus back-filled only when "deleted"); every other interface keeps
      its record. */
  ghost predicate Refreshed(sc: Scrapers, family: Family, read: Reader, recs: map<string, Record>, keys: seq<string>, blocks: map<string, string>,
                            recs': map<string, Record>)
    requires forall k :: k in keys ==> k in blocks
  {
    && (forall k :: k in recs' <==> k in recs || k in keys)
    && (forall k :: k in recs && k !in keys ==> recs'[k] == recs[k])
    && (forall k :: k in keys ==>
          && read(Block(blocks[k])).Ok?
          && recs'[k] == WithList(AddressBase(sc, recs, k, blocks[k]), family, read(Block(blocks[k])).value)
          && ListOf(recs'[k], family).Some?)
  }

  /** The two kinds of record the collector holds: a primary one with all nine attribute
      keys, or one an address pass created, whose only possible attribute is an operstatus
      of "deleted". */
  predicate Shaped(r: Record)
  {
    || HasAllAttributes(r)
    || (HasNoAttributes(r.(operstatus := Absent)) && (r.operstatus == Absent || r.operstatus == Present(Some("deleted"))))
  }

  /** A refreshed map keeps every record `Shaped`: a pass only sets lists, and the records
      it creates carry at most a "deleted" operstatus. */
  lemma RefreshedShape(sc: Scrapers, family: Family, read: Reader, recs: map<string, Record>, keys: seq<string>, blocks: map<string, string>,
                       recs': map<string, Record>)
    requires forall k :: k in keys ==> k in blocks
    requires forall k | k in recs :: Shaped(recs[k])
    requires Refreshed(sc, family, read, recs, keys, blocks, recs')
    ensures forall k | k in recs' :: Shaped(recs'[k])
  {
    forall k | k in recs'
      ensures Shaped(recs'[k])
    {
      if k in keys {
        var base := AddressBase(sc, recs, k, blocks[k]);
        assert Shaped(base);
        assert recs'[k] == WithList(base, family, read(Block(blocks[k])).value);
      }
    }
  }

  /** The other family's list of a record that was there before the pass is kept: the
      pass sets only its own family's list. */
  lemma RefreshedKeepsOther(sc: Scrapers, family: Family, read: Reader, recs: map<string, Record>, keys: seq<string>, blocks: map<string, string>,
                            recs': map<string, Record>, other: Family)
    requires forall k :: k in keys ==> k in blocks
    requires other != family
    requires Refreshed(sc, family, read, recs, keys, blocks, recs')
    ensures forall k | k in recs :: ListOf(recs'[k], other) == ListOf(recs[k], other)
  {
    forall k | k in recs && k in keys
      ensures ListOf(recs'[k], other) == ListOf(recs[k], other)
    {
      assert AddressBase(sc, recs, k, blocks[k]) == recs[k];
      match family
      case Ipv4 =>
      case Ipv6 =>
    }
  }

  /** The state after a pass over `keys`: the records are `Refreshed` and the global
      list has grown by the addresses of their lists in key order. */
  ghost predicate PassedOver(sc: Scrapers, family: Family, read: Reader, recs: map<string, Record>, all: seq<string>, keys: seq<string>, blocks: map<string, string>,
                             recs': map<string, Record>, all': seq<string>)
    requires forall k :: k in keys ==> k in blocks
  {
    && Refreshed(sc, family, read, recs, keys, blocks, recs')
    && all' == all + Flatten(recs', family, keys)
  }

  lemma {:induction false} RefreshedStep(sc: Scrapers, family: Family, read: Reader, recs: map<string, Record>, keys: seq<string>, blocks: map<string, string>,
                                         recs1: map<string, Record>, key: string, es: seq<Address>)
    requires forall k :: k in keys ==> k in blocks
    requires key in blocks && key !in keys && read(Block(blocks[key])) == Ok(es)
    requires Refreshed(sc, family, read, recs, keys, blocks, recs1)
    ensures forall k :: k in keys + [key] ==> k in blocks
    ensures Refreshed(sc, family, read, recs, keys + [key], blocks,
                      recs1[key := WithList(AddressBase(sc, recs1, key, blocks[key]), family, es)])
  {
    var keys' := keys + [key];
    var r := WithList(AddressBase(sc, recs1, key, blocks[key]), family, es);
    var recs2 := recs1[key := r];
    assert AddressBase(sc, recs1, key, blocks[key]) == AddressBase(sc, recs, key, blocks[key]);
    assert ListOf(r, family) == Some(es) by {
      match family
      case Ipv4 =>
      case Ipv6 =>
    }
    assert forall k :: k in keys' <==> k in keys || k == key;
    forall k | k in keys'
      ensures read(Block(blocks[k])).Ok?
      ensures recs2[k] == WithList(AddressBase(sc, recs, k, blocks[k]), family, read(Block(blocks[k])).value)
      ensures ListOf(recs2[k], family).Some?
    {
      if k != key {
        assert k in keys;
      }
    }
  }

  /** One more block, whose key is new, keeps `PassedOver` true. */
  lemma {:induction false} PassedOverStep(sc: Scrapers, family: Family, read: Reader, recs: map<string, Record>, all: seq<string>, keys: seq<string>, blocks: map<string, string>,
                                          recs1: map<string, Record>, all1: seq<string>, key: string)
    requires forall k :: k in keys ==> k in blocks
    requires key in blocks && key !in keys
    requires PassedOver(sc, family, read, recs, all, keys, blocks, recs1, all1)
    requires AddressStep(sc, family, read, recs1, all1, key, blocks[key]).Ok?
    ensures forall k :: k in keys + [key] ==> k in blocks
    ensures var st := AddressStep(sc, family, read, recs1, all1, key, blocks[key]).value;
            PassedOver(sc, family, read, recs, all, keys + [key], blocks, st.0, st.1)
  {
    var keys' := keys + [key];
    var es := read(Block(blocks[key])).value;
    var r := WithList(AddressBase(sc, recs1, key, blocks[key]), family, es);
    var recs2, all2 := recs1[key := r], all1 + AddressesOf(es);
    assert AddressStep(sc, family, read, recs1, all1, key, blocks[key]) == Ok((recs2, all2));
    RefreshedStep(sc, family, read, recs, keys, blocks, recs1, key, es);
    FlattenStep(recs1, family, keys, key, r, es, all, all1);
  }

  lemma FlattenStep(recs1: map<string, Record>, family: Family, keys: seq<string>, key: string, r: Record,
                    es: seq<Address>, all: seq<string>, all1: seq<string>)
    requires forall k :: k in keys ==> k in recs1 && ListOf(recs1[k], family).Some?
    requires key !in keys && ListOf(r, family) == Some(es)
    requires all1 == all + Flatten(recs1, family, keys)
    ensures all1 + AddressesOf(es) == all + Flatten(recs1[key := r], family, keys + [key])
  {
    FlattenFrame(recs1, family, keys, key, r);
    assert (keys + [key])[..|keys|] == keys;
  }

  /** A pass that returns has read every block's list without an error. */
  lemma {:induction false} PassedEntriesOk(sc: Scrapers, family: Family, read: Reader, recs: map<string, Record>, all: seq<string>,
                                           keys: seq<string>, blocks: map<string, string>, i: nat)
    requires forall k :: k in keys ==> k in blocks
    requires i < |keys| && AddressPass(sc, family, read, recs, all, keys, blocks).Ok?
    ensures read(Block(blocks[keys[i]])).Ok?
  {
    var n := |keys| - 1;
    var init := keys[..n];
    if i < n {
      PassedEntriesOk(sc, family, read, recs, all, init, blocks, i);
      assert keys[i] == init[i];
    }
  }

  /** A pass over blocks whose lists all parse returns. */
  lemma {:induction false} EntriesOkPassed(sc: Scrapers, family: Family, read: Reader, recs: map<string, Record>, all: seq<string>,
                                           keys: seq<string>, blocks: map<string, string>)
    requires forall k :: k in keys ==> k in blocks
    requires forall i :: 0 <= i < |keys| ==> read(Block(blocks[keys[i]])).Ok?
    ensures AddressPass(sc, family, read, recs, all, keys, blocks).Ok?
  {
    if keys != [] {
      var n := |keys| - 1;
      var init := keys[..n];
      forall i | 0 <= i < n
        ensures read(Block(blocks[init[i]])).Ok?
      {
        assert init[i] == keys[i];
      }
      EntriesOkPassed(sc, family, read, recs, all, init, blocks);
      assert read(Block(blocks[keys[n]])).Ok?;
    }
  }

  /** An address pass raises exactly when the addresses of one of its blocks raise. */
  lemma AddressPassRaises(sc: Scrapers, family: Family, read: Reader, recs: map<string, Record>, all: seq<string>,
                          keys: seq<string>, blocks: map<string, string>)
    requires forall k :: k in keys ==> k in blocks
    ensures AddressPass(sc, family, read, recs, all, keys, blocks).Ok? <==>
            forall i :: 0 <= i < |keys| ==> read(Block(blocks[keys[i]])).Ok?
  {
    if AddressPass(sc, family, read, recs, all, keys, blocks).Ok? {
      forall i | 0 <= i < |keys|
        ensures read(Block(blocks[keys[i]])).Ok?
      {
        PassedEntriesOk(sc, family, read, recs, all, keys, blocks, i);
      }
    } else if forall i :: 0 <= i < |keys| ==> read(Block(blocks[keys[i]])).Ok? {
      EntriesOkPassed(sc, family, read, recs, all, keys, blocks);
    }
  }

  /** What one whole address pass that returns leaves, for blocks with distinct keys:
      the state `PassedOver` describes. */
  lemma {:induction false} AddressPassEffect(sc: Scrapers, family: Family, read: Reader, recs: map<string, Record>, all: seq<string>,
                                             keys: seq<string>, blocks: map<string, string>)
    requires forall k :: k in keys ==> k in blocks
    requires forall i, j :: 0 <= i < j < |keys| ==> keys[i] != keys[j]
    ensures AddressPass(sc, family, read, recs, all, keys, blocks).Ok? ==>
              var st := AddressPass(sc, family, read, recs, all, keys, blocks).value;
              PassedOver(sc, family, read, recs, all, keys, blocks, st.0, st.1)
  {
    if keys == [] {
      return;
    }
    var n := |keys| - 1;
    var init, key := keys[..n], keys[n];
    assert keys == init + [key];
    AddressPassEffect(sc, family, read, recs, all, init, blocks);
    assert key !in init by {
      forall i | 0 <= i < n ensures keys[i] == init[i] { }
    }
    match AddressPass(sc, family, read, recs, all, init, blocks)
    case Err(e) =>
    case Ok(st) =>
      if read(Block(blocks[key])).Ok? {
        PassedOverStep(sc, family, read, recs, all, init, blocks, st.0, st.1, key);
      }
  }
}
