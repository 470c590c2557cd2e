# Cisco IOS legacy facts, modelled in Dafny

This project models the legacy facts collectors of the Cisco IOS Ansible collection.
They turn the raw text of `show` commands into a facts dictionary. The model covers:

- **Default**: `iostype`, `operatingmode`, `serialnum`, the stack lists and the `STACK` / `VSS`
  virtual-switch decision.
- **Hardware**: the `dir` file-system scanner and the per-core CPU utilization records.
- **Interfaces**:
  - the splitter that cuts `show interfaces`-style output into one block per interface;
  - the primary pass and the IPv4 and IPv6 passes over the interface records;
  - the `all_ipv4_addresses` / `all_ipv6_addresses` lists;
  - the LLDP and CDP neighbour tables and how they are merged.

Each collector is modelled twice:
- as pure functions of the command outputs (`CollectDefault`, `CollectHardware`, `InterfaceFacts`);
- as a class whose fields are the facts it writes, with methods that change them step by step
  as the Python methods do.

Every method is proved against the function that describes it. The properties are then proved
about those functions.

Modules, one per file:

| file | module | models |
|---|---|---|
| basics.dfy | Basics | `Option`, `Result`, the exceptions (`KeyError`, `ValueError`, `TypeError`), a dict slot that is missing or holds a value or None |
| text.dfy | Text | `str.split`, `str.strip`, `isspace`, `lower`, `in`, `re.match(r"^(\S+)")`, `re.match(r"^(\d+)")`, `int()` on digits |
| ordered_dict.dfy | OrderedDict | a Python dict with its insertion order (the order `parse_interfaces` returns its blocks in) |
| default.dfy | Default | `Default.populate`, `parse_iostype`, `parse_operatingmode`, `parse_stacks`, `parse_virtual_switch` |
| filesystems.dfy | Filesystems | `parse_filesystems`, `parse_filesystems_info` |
| cpu.dfy | CpuUtilization | `parse_cpu_utilization` |
| hardware.dfy | Hardware | `Hardware.populate` without the memory statistics |
| interface_blocks.dfy | InterfaceBlocks | `parse_interfaces` |
| interface_records.dfy | InterfaceRecords | the interface records, the IPv4 and IPv6 passes as functions |
| neighbors.dfy | Neighbors | `parse_neighbors`, `parse_cdp_neighbors` |
| interfaces.dfy | Interfaces | `Interfaces.populate`, `populate_interfaces`, `populate_ipv4_interfaces`, `populate_ipv6_interfaces`, `add_ip_address`, `parse_deleted_status` |

How the regular expressions are treated:

- **Written out exactly:**
  - the `\sIOS-XE\s` search;
  - `^Directory of (\S+)/`, including its backtracking to the last `/` of the token;
  - `^(\d+) bytes total \((\d+) bytes free\)`;
  - `^(\S+)` in the block splitter;
  - the `/` split of an IPv4 address;
  - the dash separators of the neighbour output.
- **Supplied as function values** (scraper records, or a function from a block or an entry to
  what all its searches return): the single-search field extractors, the `findall`s of the
  address passes and of the stack and VSS lists, the composite CPU pattern, and
  `normalize_interface`.
- **The wrapper types** `Block` and `EntryText` give those functions an argument type of their own.

Behaviour that is easy to misread, as the code has it and as the model follows it:

- **Continuation lines keep their indentation.** `parse_interfaces` appends a newline and then the
  whole line, leading spaces included.
- **Sizes are never truncated.** The sizes `parse_filesystems_info` computes are true divisions
  (`from __future__ import division`). The model keeps the raw byte counts.
- **An IPv4 block with no "Internet address is" line still resets the list.** The interface's
  `ipv4` list is reset to `[]` before the `continue`, so the interface ends with an empty list;
  it is not left out.
- **A byte-count line before any directory line raises.** `parse_filesystems_info` raises
  `KeyError` on the key `""`.
- **An indented line before any key line raises.** `parse_interfaces` raises `KeyError` on the
  key `""`.
- **Without an `"interfaces"` key, the address pass raises.** This happens when `show interfaces`
  returned nothing. The first block of `show ip interface` (or `show ipv6 interface`) then
  raises `KeyError("interfaces")` inside the `except` branch.

## Model

| member | source | states |
|---|---|---|
| OrderedDict.Dict.Put | plugins/module_utils/network/ios/facts/legacy/base.py:371-376 | assigning a key keeps the key order duplicate-free and in step with the entries; a new key goes last, an existing key keeps its place |
| OrderedDict.Empty | plugins/module_utils/network/ios/facts/legacy/base.py:365 | `dict()` has no keys and no entries |
| Text.SplitJoin | plugins/module_utils/network/ios/facts/legacy/base.py:367 | joining the pieces of `split(sep)` with `sep` gives back the text: splitting loses nothing |
| Text.SplitPiecesAvoidSeparator | plugins/module_utils/network/ios/facts/legacy/base.py:329 | no piece of a split contains the separator |
| Text.SplitOnChar | plugins/module_utils/network/ios/facts/legacy/base.py:301 | splitting on one character gives one piece more than it has occurrences, the first piece is the text before the first occurrence, and the rest is the split of what follows it |
| Text.SplitAtOnly | plugins/module_utils/network/ios/facts/legacy/base.py:301 | with exactly one occurrence, the split is the text before it and the text after it |
| Text.StripMeaning | plugins/module_utils/network/ios/facts/legacy/base.py:302 | `strip()` keeps a slice of the text with only whitespace cut away on either side, and the result neither starts nor ends with whitespace |
| Text.LStripMeaning | plugins/module_utils/network/ios/facts/legacy/base.py:302 | `lstrip()` removes exactly the leading whitespace |
| Text.RStripMeaning | plugins/module_utils/network/ios/facts/legacy/base.py:302 | `rstrip()` removes exactly the trailing whitespace |
| Text.LeadingToken | plugins/module_utils/network/ios/facts/legacy/base.py:373 | the group of `^(\S+)` is the longest whitespace-free prefix: a prefix, free of whitespace, followed by whitespace or the end |
| Text.LeadingTokenOfTokenThenSpace | plugins/module_utils/network/ios/facts/legacy/base.py:373 | a token followed by whitespace or the end of the text is exactly what `^(\S+)` captures |
| Text.LeadingDigits | plugins/module_utils/network/ios/facts/legacy/base.py:166 | the group of `^(\d+)` is the longest digit prefix |
| Text.LeadingDigitsOfDigitsThenOther | plugins/module_utils/network/ios/facts/legacy/base.py:166 | digits followed by a non-digit or the end are exactly what `^(\d+)` captures |
| Text.IndexOfChar | plugins/module_utils/network/ios/facts/legacy/base.py:301 | the first occurrence of a character: none before it, and it exists exactly when the count is positive |
| Text.CountAfterFirst | plugins/module_utils/network/ios/facts/legacy/base.py:301 | the occurrences of a character are its first one plus those after it |
| Default.IosXeFromMeaning | plugins/module_utils/network/ios/facts/legacy/base.py:67 | the left-to-right search from index i succeeds exactly when a whitespace-bounded `IOS-XE` starts at i or later |
| Default.IosType | plugins/module_utils/network/ios/facts/legacy/base.py:66-71 | the type is "IOS-XE" or "IOS", and "IOS-XE" exactly when `IOS-XE` occurs with whitespace on both sides |
| Default.OperatingMode | plugins/module_utils/network/ios/facts/legacy/base.py:73-79 | the mode is "autonomous" or "controller"; "autonomous" exactly for an IOS device or when the router mode contains "autonomous" in any letter case, "controller" otherwise |
| Default.VersionDecision | plugins/module_utils/network/ios/facts/legacy/base.py:56-59 | after non-empty `show version` text, iostype is "IOS-XE" exactly when the bounded token occurs, an IOS device is autonomous, and the serialnum key is set |
| Default.VirtualSwitchDecision | plugins/module_utils/network/ios/facts/legacy/base.py:52-106 | the virtual switch is "VSS" when the combined text passes the gate and has a domain number, otherwise "STACK" when a model list is found or already held, otherwise unchanged: VSS overrides STACK |
| Default.NewCollectorVirtualSwitch | plugins/module_utils/network/ios/facts/legacy/base.py:86-106 | for a new collector, "VSS" exactly when the VSS rule applies, "STACK" exactly when it does not and a model number is found, and no other value |
| Default.DefaultCollector.constructor | plugins/module_utils/network/ios/facts/legacy/base.py:36-40 | a new collector holds no facts |
| Default.DefaultCollector.ParseStacks | plugins/module_utils/network/ios/facts/legacy/base.py:86-96 | the fields after parse_stacks are `Stacks` of the fields before |
| Default.DefaultCollector.ParseVirtualSwitch | plugins/module_utils/network/ios/facts/legacy/base.py:98-106 | the fields after parse_virtual_switch are `VirtualSwitch` of the fields before |
| Default.DefaultCollector.Populate | plugins/module_utils/network/ios/facts/legacy/base.py:52-64 | the fields after populate are `CollectDefault` of the fields before and the three outputs |
| Filesystems.DirectoryOf | plugins/module_utils/network/ios/facts/legacy/base.py:161-163 | a matched file-system name is non-empty, free of whitespace, and the line starts with `Directory of `, the name and `/` |
| Filesystems.DirectoryGreedy | plugins/module_utils/network/ios/facts/legacy/base.py:161 | any non-empty whitespace-free name followed by `/` right after `Directory of ` makes the match succeed with a name at least that long, so the match fails only when no such name exists and the name found runs to the last `/` of the leading token |
| Filesystems.DirectoryLine | plugins/module_utils/network/ios/facts/legacy/base.py:161-163 | a line `Directory of <fs>/` followed by whitespace or the end yields exactly `<fs>` |
| Filesystems.Decimal | plugins/module_utils/network/ios/facts/legacy/base.py:166 | the decimal digits of a count are digits and have that value |
| Filesystems.BytesLine | plugins/module_utils/network/ios/facts/legacy/base.py:166 | a line yields counts only when it starts with two non-empty digit strings around ` bytes total (` and ` bytes free)`, and the counts are their values |
| Filesystems.BytesLineOf | plugins/module_utils/network/ios/facts/legacy/base.py:166 | a byte-count line made of two digit strings yields their values, whatever follows it |
| Filesystems.BytesLineRoundTrip | plugins/module_utils/network/ios/facts/legacy/base.py:166 | the byte-count line as `dir` prints it for two counts yields those two counts |
| Filesystems.Kind | plugins/module_utils/network/ios/facts/legacy/base.py:161-169 | a line is a directory line exactly when the directory regex matches it: that test comes first |
| Filesystems.ParseFilesystemsInfo | plugins/module_utils/network/ios/facts/legacy/base.py:157-170 | the loop returns `FilesystemsInfo` of the text, or raises its error |
| Filesystems.RecordOpened | plugins/module_utils/network/ios/facts/legacy/base.py:163-164 | a directory line opens an empty record for its file system, replacing an earlier one |
| Filesystems.RecordFilled | plugins/module_utils/network/ios/facts/legacy/base.py:166-169 | a byte-count line fills the record of the file system opened last |
| Filesystems.RecordUnchanged | plugins/module_utils/network/ios/facts/legacy/base.py:160-169 | any other line leaves a file system's record as it was |
| Filesystems.FsStepSound | plugins/module_utils/network/ios/facts/legacy/base.py:161-169 | one more line raises exactly when it holds counts and no directory line came before, always on the key "", and otherwise keeps the records those of the lines |
| Filesystems.FsScanSound | plugins/module_utils/network/ios/facts/legacy/base.py:157-170 | when the loop returns, its records are those of the lines |
| Filesystems.FsScanRaises | plugins/module_utils/network/ios/facts/legacy/base.py:164-168 | the loop raises exactly when a byte-count line comes before any directory line, and then raises KeyError("") |
| Filesystems.DirNamesListed | plugins/module_utils/network/ios/facts/legacy/base.py:154-155 | parse_filesystems lists exactly the names some directory line opens |
| Filesystems.FilesystemsInfoCharacterized | plugins/module_utils/network/ios/facts/legacy/base.py:154-170 | parse_filesystems_info raises KeyError("") exactly on a byte-count line before any directory line; otherwise it has a record for exactly the names parse_filesystems lists, each opened by the last directory line naming it and filled by the last byte-count line after it and before the next directory line |
| CpuUtilization.CoreKeySame | plugins/module_utils/network/ios/facts/legacy/base.py:188-191 | two matches write the same record exactly when both name no core or both name the same core |
| CpuUtilization.CpuRecord | plugins/module_utils/network/ios/facts/legacy/base.py:192-200 | a record is written exactly when a five-second value and both minute values are there; five seconds is the numerator when it is there, else the plain percentage; one minute and five minutes are the one-minute and five-minute values; the interrupt share is the denominator if any |
| CpuUtilization.ParseCpuUtilization | plugins/module_utils/network/ios/facts/legacy/base.py:172-201 | the loop returns `CpuFacts` of the lines, or raises its error |
| CpuUtilization.LastLineFor | plugins/module_utils/network/ios/facts/legacy/base.py:185-191 | the index found is a matching line for the key, and no later matching line has that key |
| CpuUtilization.LastLineWins | plugins/module_utils/network/ios/facts/legacy/base.py:185-200 | the parse raises exactly when some matching line lacks a value; otherwise it holds a record for exactly the keys of matching lines, each being the record of the last matching line with that key |
| Hardware.CpuErrorIsTypeError | plugins/module_utils/network/ios/facts/legacy/base.py:192-196 | the only error the CPU parse raises is a TypeError |
| Hardware.HardwareOutcome | plugins/module_utils/network/ios/facts/legacy/base.py:130-138 | populate, when it returns, records the CPU records of the CPU output; for non-empty `dir` output it records the listed names and the byte-count records of that output, one record per listed name, and for empty output it leaves both file-system facts as they were; it raises only KeyError("") or a TypeError |
| Hardware.HardwareCollector.constructor | plugins/module_utils/network/ios/facts/legacy/base.py:36-40 | a new collector holds no facts |
| Hardware.HardwareCollector.Populate | plugins/module_utils/network/ios/facts/legacy/base.py:130-138 | populate returns exactly when `CollectHardware` does and then holds its facts, or raises its error |
| InterfaceBlocks.Role | plugins/module_utils/network/ios/facts/legacy/base.py:368-376 | a line continues a block exactly when it starts with a space, and starts one exactly when its first character is not whitespace, with its leading token as key and the whole line as text |
| InterfaceBlocks.Roles | plugins/module_utils/network/ios/facts/legacy/base.py:367 | each line is read on its own |
| InterfaceBlocks.ParseInterfaces | plugins/module_utils/network/ios/facts/legacy/base.py:364-377 | the loop returns `Blocks` of the text, or raises its KeyError |
| InterfaceBlocks.StepSkipped | plugins/module_utils/network/ios/facts/legacy/base.py:368-369 | an empty line, or one starting with other whitespace, changes nothing and closes no block |
| InterfaceBlocks.StepContinuation | plugins/module_utils/network/ios/facts/legacy/base.py:370-371 | after a key line, an indented line is appended to the current block after a newline, indentation kept |
| InterfaceBlocks.StepKeyLine | plugins/module_utils/network/ios/facts/legacy/base.py:372-376 | a key line starts the block of its token with the whole line, replacing an earlier block of the same key |
| InterfaceBlocks.BlockStarted | plugins/module_utils/network/ios/facts/legacy/base.py:375-376 | a key line's block holds just that line |
| InterfaceBlocks.BlockExtended | plugins/module_utils/network/ios/facts/legacy/base.py:371 | an indented line extends the block of the current key by a newline and the line |
| InterfaceBlocks.StepSound | plugins/module_utils/network/ios/facts/legacy/base.py:368-376 | one more line raises exactly when it is indented and no key line came before, and otherwise keeps the blocks those of the lines |
| InterfaceBlocks.ScanRolesSound | plugins/module_utils/network/ios/facts/legacy/base.py:364-377 | the loop raises exactly on an indented line before any key line, and otherwise returns the blocks of the lines |
| InterfaceBlocks.KeyOrderTokens | plugins/module_utils/network/ios/facts/legacy/base.py:375-376 | the first-appearance order lists exactly the key tokens |
| InterfaceBlocks.ScanKeyOrder | plugins/module_utils/network/ios/facts/legacy/base.py:375-376 | the blocks come out in the order their keys first appear; a repeated key keeps its place |
| InterfaceBlocks.BlocksCharacterized | plugins/module_utils/network/ios/facts/legacy/base.py:364-377 | parse_interfaces raises exactly when an indented line comes before any key line; otherwise one block per distinct token, holding the last key line with that token and the indented lines after it, in first-appearance order |
| InterfaceRecords.SlashSplit | plugins/module_utils/network/ios/facts/legacy/base.py:301 | `split("/")` gives two pieces exactly when there is one `/`, and then the texts before and after it |
| InterfaceRecords.Ipv4AddressMeaning | plugins/module_utils/network/ios/facts/legacy/base.py:301-302 | an IPv4 address line parses exactly when it holds one `/`, into the stripped texts before and after it; otherwise ValueError |
| InterfaceRecords.ParseEachPointwise | plugins/module_utils/network/ios/facts/legacy/base.py:300-304 | the list of parsed addresses has one entry per line in line order, and the loop raises exactly when one line fails |
| InterfaceRecords.Ipv4Entries | plugins/module_utils/network/ios/facts/legacy/base.py:294-304 | a block without "Internet address is" leaves an empty list; otherwise the list raises exactly when an address line lacks exactly one `/`, and else holds each line's stripped address and subnet in order |
| InterfaceRecords.Ipv6Pairing | plugins/module_utils/network/ios/facts/legacy/base.py:314-317 | the k-th address goes with the k-th subnet, both stripped, and there are as many pairs as the shorter list has entries |
| InterfaceRecords.RefreshedShape | plugins/module_utils/network/ios/facts/legacy/base.py:288-293 | a pass keeps every record either primary (all nine attribute keys) or created (at most an operstatus of "deleted") |
| InterfaceRecords.RefreshedKeepsOther | plugins/module_utils/network/ios/facts/legacy/base.py:289 | a pass leaves the other family's list of every existing record alone |
| InterfaceRecords.PassedOverStep | plugins/module_utils/network/ios/facts/legacy/base.py:287-304 | one more block with a new key: its record gets its list on its old or created record, and the global list grows by the same addresses |
| InterfaceRecords.AddressPassRaises | plugins/module_utils/network/ios/facts/legacy/base.py:286-319 | a pass raises exactly when the addresses of one of its blocks do not parse |
| InterfaceRecords.AddressPassEffect | plugins/module_utils/network/ios/facts/legacy/base.py:286-325 | after a pass that returns, each block's interface holds the list parsed from its block, reset on its record or on a created one whose operstatus is back-filled only when "deleted"; other interfaces are untouched; the global list grows by the lists' addresses in block order |
| Neighbors.StopAt | plugins/module_utils/network/ios/facts/legacy/base.py:330-334 | the loop gets past every entry before the stop, and the entry at the stop is non-empty and names no interface |
| Neighbors.StopIgnoresRest | plugins/module_utils/network/ios/facts/legacy/base.py:332-334 | entries after the first one naming no interface are ignored, whatever they hold |
| Neighbors.GroupByInterface | plugins/module_utils/network/ios/facts/legacy/base.py:336-342 | the table lists exactly the interfaces some entry names, and under each one every neighbour filed under it, in entry order |
| Neighbors.GroupEntries | plugins/module_utils/network/ios/facts/legacy/base.py:328-343 | the loop returns the table of the entries before the first one naming no interface |
| Neighbors.ParseNeighbors | plugins/module_utils/network/ios/facts/legacy/base.py:327-362 | parse_neighbors and parse_cdp_neighbors return `NeighborTable` of the detail output |
| Interfaces.PrimaryStageEffect | plugins/module_utils/network/ios/facts/legacy/base.py:237-240 | the `show interfaces` stage raises only when the text cannot be split; for non-empty text the interfaces become exactly its blocks, each with all nine attribute keys; nothing else changes |
| Interfaces.AddressStageRaises | plugins/module_utils/network/ios/facts/legacy/base.py:242-250 | an address stage raises exactly when its text cannot be split, when it has blocks but no "interfaces" key (then KeyError("interfaces")), or when a block's addresses do not parse |
| Interfaces.PassShape | plugins/module_utils/network/ios/facts/legacy/base.py:286-319 | a pass that returns keeps records shaped, adds each block's interface with its list set, leaves other records, and keeps the other family's lists |
| Interfaces.AddressStageEffect | plugins/module_utils/network/ios/facts/legacy/base.py:242-250 | an address stage that returns adds each block's interface with its list set, leaves other records, the other family's lists and global list, and the neighbours alone |
| Interfaces.AddressStageNeighbors | plugins/module_utils/network/ios/facts/legacy/base.py:242-250 | an address stage never touches the neighbours |
| Interfaces.NeighborMerge | plugins/module_utils/network/ios/facts/legacy/base.py:252-266 | the neighbours are the interfaces of the LLDP and CDP tables, and for one in both, CDP's list |
| Interfaces.MissingInterfacesRaises | plugins/module_utils/network/ios/facts/legacy/base.py:286-292 | with no "interfaces" key and empty `show interfaces`, a `show ip interface` with blocks raises KeyError("interfaces") |
| Interfaces.InterfaceKeys | plugins/module_utils/network/ios/facts/legacy/base.py:230-250 | after populate with `show interfaces` text, the interfaces are exactly the block names of the three commands, all shaped, with an ipv4 list for each IPv4 block and an ipv6 list for each IPv6 block |
| Interfaces.InterfacesCollector.constructor | plugins/module_utils/network/ios/facts/legacy/base.py:36-40 | a new collector holds no facts |
| Interfaces.InterfacesCollector.PopulateInterfaces | plugins/module_utils/network/ios/facts/legacy/base.py:268-284 | one primary record per block, under the block's key, with all nine attribute keys and no address list |
| Interfaces.InterfacesCollector.AddIpAddress | plugins/module_utils/network/ios/facts/legacy/base.py:321-325 | "ipv4" appends to the IPv4 list, any other family to the IPv6 list; nothing else changes |
| Interfaces.InterfacesCollector.ParseDeletedStatus | plugins/module_utils/network/ios/facts/legacy/base.py:379-382 | the record's operstatus is set only when the block's status is exactly "deleted" |
| Interfaces.InterfacesCollector.AppendAddress | plugins/module_utils/network/ios/facts/legacy/base.py:303-304 | one address goes to the global list and to the end of the interface's list |
| Interfaces.InterfacesCollector.AppendListed | plugins/module_utils/network/ios/facts/legacy/base.py:316-319 | appending one address to a list that already holds a prefix of the entries extends both that list and the global list of the same family by it, and leaves the other family's global list and the neighbors unchanged |
| Interfaces.InterfacesCollector.ResetList | plugins/module_utils/network/ios/facts/legacy/base.py:288-293 | the interface's list is reset, or the interface is created with an empty list and its "deleted" status back-filled; without "interfaces", KeyError |
| Interfaces.InterfacesCollector.RecordIpv4Addresses | plugins/module_utils/network/ios/facts/legacy/base.py:300-304 | the list and the global list grow by the parsed addresses in order, or the first bad address raises |
| Interfaces.InterfacesCollector.RefreshIpv4 | plugins/module_utils/network/ios/facts/legacy/base.py:287-304 | one IPv4 block leaves the state `AddressStep` gives, or its error |
| Interfaces.InterfacesCollector.RecordIpv6Pairs | plugins/module_utils/network/ios/facts/legacy/base.py:316-319 | the list and the global list grow by the `zip`ped, stripped pairs in order |
| Interfaces.InterfacesCollector.RefreshIpv6 | plugins/module_utils/network/ios/facts/legacy/base.py:307-319 | one IPv6 block leaves the state `AddressStep` gives |
| Interfaces.InterfacesCollector.Refresh | plugins/module_utils/network/ios/facts/legacy/base.py:286-319 | one block of either pass, with the other family's list and the neighbours unchanged |
| Interfaces.InterfacesCollector.PassOne | plugins/module_utils/network/ios/facts/legacy/base.py:287-304 | one turn of the loop over the blocks extends the pass by one key |
| Interfaces.InterfacesCollector.PassBlocks | plugins/module_utils/network/ios/facts/legacy/base.py:286-319 | the loop over the blocks in key order leaves the state `AddressPass` gives, or raises its error |
| Interfaces.InterfacesCollector.PopulateAddresses | plugins/module_utils/network/ios/facts/legacy/base.py:286-319 | populate_ipv4_interfaces / populate_ipv6_interfaces leave `AddressFacts`, raising KeyError("interfaces") on the first block when that key is missing |
| Interfaces.InterfacesCollector.ReadInterfaces | plugins/module_utils/network/ios/facts/legacy/base.py:237-240 | the `show interfaces` part leaves `PrimaryStage` |
| Interfaces.InterfacesCollector.ReadAddresses | plugins/module_utils/network/ios/facts/legacy/base.py:242-250 | an address part leaves `AddressStage` |
| Interfaces.InterfacesCollector.ReadNeighbors | plugins/module_utils/network/ios/facts/legacy/base.py:252-266 | the neighbours are updated with the LLDP table, then the CDP table, each only when its gate opens and the detail command returned something |
| Interfaces.InterfacesCollector.Populate | plugins/module_utils/network/ios/facts/legacy/base.py:230-266 | Interfaces.populate returns exactly when `InterfaceFacts` does and then holds its facts, or raises its error |

## Left out

- `FactsBase.populate` and `run` (`run_commands`): the command outputs are parameters. This
  covers the five responses of each collector and the `show lldp neighbors detail` /
  `show cdp neighbors detail` results, which are sequences, so an empty result is modelled.
- `Default.platform_facts` and `get_capabilities`: they read the device capabilities and the
  host Python version, which are outside this module.
- Config.populate: a single multi-line `re.sub` on the configuration text, with no state to
  model.
- The memory statistics of `Hardware.populate` (lines 140-152): float divisions by 1048576 and a
  warning appended to a local list that is then dropped.
- Filesystems.FsInfo: the byte counts are kept raw. `/ 1024` is a float division.
- The single-search field extractors (lines 384-473), the `findall`s of the stack, VSS and
  address lines, the composite CPU pattern and `normalize_interface`: they are function
  values in the scraper records, not regular expressions. So, for example, the model does not
  show that `parse_operstatus` returns a left-stripped group.
- Text.IsDigit: it is ASCII digits only. A Unicode digit that Python's `\d` would accept is not
  modelled.
- Text.Lower: it lowers ASCII letters only.
- Interfaces.InterfacesCollector.Populate: when it raises, the facts it leaves behind are not
  stated. The same holds for `Hardware.HardwareCollector.Populate` and for every method returning
  `Fail`. Python leaves partial updates in place; the model promises only the error.
- Interfaces.Facts: `facts["interfaces"]` and the neighbours are plain maps, so the order of
  their keys is not modelled. Key order is kept only for the `parse_interfaces` blocks, which fix
  the order of the global address lists.
- The `warnings` list of `FactsBase`: no modelled code writes it.
