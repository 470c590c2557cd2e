/** `Interfaces.parse_interfaces`: split the text of a `show interfaces`-style command
    into one block per interface.

    Each line of `data.split("\n")` is handled on its own: an empty line is skipped; a
    line starting with a space is appended, after a newline and with its indentation kept,
    to the block of the current key (a KeyError when no key line came before it); any other
    line whose first character is not whitespace starts the block of its leading token,
    holding the whole line and replacing an earlier block of the same key; the remaining
    lines (starting with a tab or other whitespace) are ignored. The loop is stated over
    the role each line plays, which `Role` reads off the line. */
module InterfaceBlocks {
  import opened Basics
  import opened Text
  import opened OrderedDict

  /** A line that `re.match(r"^(\S+)", line)` accepts. */
  predicate IsKeyLine(line: string)
  {
    |line| > 0 && !IsSpace(line[0])
  }

  /** A line whose first character is a space. */
  predicate IsContinuation(line: string)
  {
    |line| > 0 && line[0] == ' '
  }

  /** What one line does in the loop: nothing, continue the current block, or start the
      block of its token. */
  datatype LineRole = Skipped | Indented(text: string) | KeyLine(token: string, text: string)

  /** The branch of the loop body a line takes. */
  function Role(line: string): (r: LineRole)
    ensures r.Indented? <==> IsContinuation(line)
    ensures r.KeyLine? <==> IsKeyLine(line)
    ensures r.Indented? ==> r.text == line
    ensures r.KeyLine? ==> r.token == LeadingToken(line) && r.token != [] && r.text == line
  {
    if |line| == 0 then Skipped
    else if line[0] == ' ' then Indented(line)
    else
      var token := LeadingToken(line);
      assert token != [] ==> token[0] == line[0];
      if token == [] then Skipped else KeyLine(token, line)
  }

  /** The roles of a sequence of lines. */
  function Roles(lines: seq<string>): (roles: seq<LineRole>)
    ensures |roles| == |lines| && forall i :: 0 <= i < |lines| ==> roles[i] == Role(lines[i])
  {
    seq(|lines|, i requires 0 <= i < |lines| => Role(lines[i]))
  }

  /** The loop state of parse_interfaces: the current key and the blocks so far. */
  datatype Scan = Scan(key: string, parsed: Dict<string>)

  /** One iteration of the loop. */
  function Step(st: Scan, r: LineRole): (r': Result<Scan>)
    requires st.parsed.Valid()
    ensures r'.Ok? ==> r'.value.parsed.Valid()
  {
    match r
    case Skipped => Ok(st)
    case Indented(text) =>
      if st.key in st.parsed.entries
      then Ok(Scan(st.key, st.parsed.Put(st.key, st.parsed.entries[st.key] + "\n" + text)))
      else Err(KeyError(st.key))
    case KeyLine(token, text) => Ok(Scan(token, st.parsed.Put(token, text)))
  }

  /** The loop run over the roles of a sequence of lines, starting from `key = ""` and
      `parsed = dict()`. */
  function ScanRoles(roles: seq<LineRole>): (r: Result<Scan>)
    ensures r.Ok? ==> r.value.parsed.Valid()
  {
    if roles == [] then Ok(Scan("", Empty()))
    else
      match ScanRoles(roles[..|roles| - 1])
      case Err(e) => Err(e)
      case Ok(st) => Step(st, roles[|roles| - 1])
  }

  /** What parse_interfaces returns for `data`, or the KeyError it raises. */
  function Blocks(data: string): (r: Result<Dict<string>>)
    ensures r.Ok? ==> r.value.Valid()
  {
    match ScanRoles(Roles(Lines(data)))
    case Err(e) => Err(e)
    case Ok(st) => Ok(st.parsed)
  }

  /** parse_interfaces itself. */
  method ParseInterfaces(data: string) returns (r: Result<Dict<string>>)
    ensures r == Blocks(data)
  {
    var lines := Lines(data);
    ghost var roles := Roles(lines);
    var key := "";
    var parsed: Dict<string> := Empty();
    var i := 0;
    while i < |lines|
      invariant 0 <= i <= |lines|
      invariant ScanRoles(roles[..i]) == Ok(Scan(key, parsed))
    {
      var line := lines[i];
      assert roles[..i + 1][..i] == roles[..i];
      if |line| > 0 {
        if line[0] == ' ' {
          if key !in parsed.entries {
            ScanErrorSticks(roles, i + 1);
            return Err(KeyError(key));
          }
          parsed := parsed.Put(key, parsed.entries[key] + "\n" + line);
        } else {
          var token := LeadingToken(line);
          if token != [] {
            key := token;
            parsed := parsed.Put(key, line);
          }
        }
      }
      i := i + 1;
    }
    assert roles[..i] == roles;
    return Ok(parsed);
  }

  /** Once the loop has raised, later lines change nothing. */
  lemma {:induction false} ScanErrorSticks(roles: seq<LineRole>, j: nat)
    requires j <= |roles| && ScanRoles(roles[..j]).Err?
    ensures ScanRoles(roles) == ScanRoles(roles[..j])
    decreases |roles|
  {
    if j < |roles| {
      var init := roles[..|roles| - 1];
      assert init[..j] == roles[..j];
      ScanErrorSticks(init, j);
    } else {
      assert roles[..j] == roles;
    }
  }

  // ---------------------------------------------------------------------------
  // What the blocks are, stated line by line.

  /** No key line among the first `i` lines. */
  ghost predicate NoKeyLineBefore(roles: seq<LineRole>, i: int)
  {
    forall j :: 0 <= j < i && j < |roles| ==> !roles[j].KeyLine?
  }

  /** The tokens of the key lines. */
  function KeyTokens(roles: seq<LineRole>): set<string>
  {
    if roles == [] then {}
    else
      var r := roles[|roles| - 1];
      KeyTokens(roles[..|roles| - 1]) + if r.KeyLine? then {r.token} else {}
  }

  /** Index of the last key line whose token is `k`, or -1. */
  function LastKeyLineFor(roles: seq<LineRole>, k: string): (j: int)
    ensures -1 <= j < |roles|
    ensures j >= 0 ==> roles[j].KeyLine? && roles[j].token == k
    ensures j >= 0 <==> k in KeyTokens(roles)
  {
    if roles == [] then -1
    else
      var r := roles[|roles| - 1];
      if r.KeyLine? && r.token == k then |roles| - 1
      else LastKeyLineFor(roles[..|roles| - 1], k)
  }

  /** Index of the last key line, or -1. */
  function LastKeyLine(roles: seq<LineRole>): (m: int)
    ensures -1 <= m < |roles|
    ensures m >= 0 ==> roles[m].KeyLine?
  {
    if roles == [] then -1
    else if roles[|roles| - 1].KeyLine? then |roles| - 1
    else LastKeyLine(roles[..|roles| - 1])
  }

  /** No key line with token `k` comes after the one LastKeyLineFor finds. */
  lemma {:induction false} LastKeyLineForIsLast(roles: seq<LineRole>, k: string, j: int)
    requires LastKeyLineFor(roles, k) < j < |roles| && roles[j].KeyLine?
    ensures roles[j].token != k
  {
    var n := |roles| - 1;
    if j < n {
      var init := roles[..n];
      assert init[j] == roles[j];
      LastKeyLineForIsLast(init, k, j);
    }
  }

  /** No key line comes after the one LastKeyLine finds. */
  lemma {:induction false} LastKeyLineIsLast(roles: seq<LineRole>, j: int)
    requires LastKeyLine(roles) < j < |roles|
    ensures !roles[j].KeyLine?
  {
    var n := |roles| - 1;
    if j < n {
      var init := roles[..n];
      assert init[j] == roles[j];
      LastKeyLineIsLast(init, j);
    }
  }

  /** The text the key line at index `j` collects: after a newline each, the indented
      lines whose nearest key line before them is the one at `j`. */
  function Following(roles: seq<LineRole>, j: int): string
  {
    if roles == [] || |roles| <= j + 1 then ""
    else
      var n := |roles| - 1;
      Following(roles[..n], j) + if roles[n].Indented? && LastKeyLine(roles[..n]) == j then "\n" + roles[n].text else ""
  }

  /** `v` is the block of key `k`: the last key line with token `k` followed by the text
      it collects. */
  ghost predicate BlockOf(roles: seq<LineRole>, k: string, v: string)
  {
    var j := LastKeyLineFor(roles, k);
    0 <= j && v == roles[j].text + Following(roles, j)
  }

  /** The blocks of the lines: one per distinct token of a key line, holding the last key
      line with that token followed by the indented lines after it. */
  ghost predicate BlocksOfLines(roles: seq<LineRole>, parsed: Dict<string>)
  {
    && parsed.Valid()
    && parsed.entries.Keys == KeyTokens(roles)
    && forall k | k in parsed.entries :: BlockOf(roles, k, parsed.entries[k])
  }

  ghost predicate Describes(roles: seq<LineRole>, st: Scan)
  {
    && BlocksOfLines(roles, st.parsed)
    && var m := LastKeyLine(roles);
       st.key == if m < 0 then "" else roles[m].token
  }

  /** The last key line is the last key line of its own token. */
  lemma {:induction false} LastKeyLineOfCurrentKey(roles: seq<LineRole>)
    requires LastKeyLine(roles) >= 0
    ensures LastKeyLineFor(roles, roles[LastKeyLine(roles)].token) == LastKeyLine(roles)
  {
    var n := |roles| - 1;
    if !roles[n].KeyLine? {
      var init := roles[..n];
      LastKeyLineOfCurrentKey(init);
      assert init[LastKeyLine(init)] == roles[LastKeyLine(roles)];
    }
  }

  /** The loop fails exactly on an indented line before any key line, and otherwise
      returns the blocks of the lines. */
  lemma {:induction false} ScanRolesSound(roles: seq<LineRole>)
    ensures ScanRoles(roles).Err? <==>
            exists i :: 0 <= i < |roles| && roles[i].Indented? && NoKeyLineBefore(roles, i)
    ensures ScanRoles(roles).Ok? ==> Describes(roles, ScanRoles(roles).value)
  {
    if roles == [] {
      return;
    }
    var n := |roles| - 1;
    var init, r := roles[..n], roles[n];
    ScanRolesSound(init);
    forall j | 0 <= j < n ensures roles[j] == init[j] { }
    match ScanRoles(init)
    case Err(e) =>
      var i :| 0 <= i < |init| && init[i].Indented? && NoKeyLineBefore(init, i);
      assert roles[i].Indented? && NoKeyLineBefore(roles, i);
    case Ok(st) =>
      StepSound(roles, st);
      forall i | 0 <= i < n ensures NoKeyLineBefore(roles, i) == NoKeyLineBefore(init, i) { }
  }

  /** One more line: it raises exactly when it is indented and no key line came before. */
  lemma StepSound(roles: seq<LineRole>, st: Scan)
    requires roles != [] && Describes(roles[..|roles| - 1], st)
    ensures var r := roles[|roles| - 1];
            Step(st, r).Err? <==> r.Indented? && NoKeyLineBefore(roles, |roles| - 1)
    ensures Step(st, roles[|roles| - 1]).Ok? ==> Describes(roles, Step(st, roles[|roles| - 1]).value)
  {
    var init, r := roles[..|roles| - 1], roles[|roles| - 1];
    assert roles == init + [r];
    assert NoKeyLineBefore(roles, |init|) == NoKeyLineBefore(init, |init|);
    var m := LastKeyLine(init);
    forall j | m < j < |init| ensures !init[j].KeyLine? {
      LastKeyLineIsLast(init, j);
    }
    assert NoKeyLineBefore(init, |init|) <==> m < 0;
    if m >= 0 {
      LastKeyLineOfCurrentKey(init);
    }
    assert st.key in st.parsed.entries <==> m >= 0;
    match r
    case Skipped => StepSkipped(init, st);
    case Indented(text) =>
      if m >= 0 {
        StepContinuation(init, text, st);
      }
    case KeyLine(token, text) => StepKeyLine(init, token, text, st);
  }

  /** A line that neither starts a block for `k` nor continues it leaves `k`'s block alone. */
  lemma BlockUnchanged(init: seq<LineRole>, r: LineRole, k: string, v: string)
    requires BlockOf(init, k, v)
    requires !(r.KeyLine? && r.token == k)
    requires !r.Indented? || LastKeyLineFor(init, k) != LastKeyLine(init)
    ensures BlockOf(init + [r], k, v)
  {
    var roles := init + [r];
    LastKeyLineForSnoc(init, r, k);
    assert roles[..|init|] == init;
    assert roles[LastKeyLineFor(init, k)] == init[LastKeyLineFor(init, k)];
  }

  /** A line that is not a key line for `k` leaves `k`'s last key line where it was. */
  lemma LastKeyLineForSnoc(init: seq<LineRole>, r: LineRole, k: string)
    requires !(r.KeyLine? && r.token == k)
    ensures LastKeyLineFor(init + [r], k) == LastKeyLineFor(init, k)
  {
    assert (init + [r])[..|init|] == init;
  }

  /** An indented line extends the block of the current key. */
  lemma BlockExtended(init: seq<LineRole>, text: string, k: string, v: string)
    requires BlockOf(init, k, v)
    requires LastKeyLineFor(init, k) == LastKeyLine(init)
    ensures BlockOf(init + [Indented(text)], k, v + "\n" + text)
  {
    var r := Indented(text);
    var roles := init + [r];
    var j := LastKeyLineFor(init, k);
    LastKeyLineForSnoc(init, r, k);
    assert roles[..|init|] == init;
    assert roles[j] == init[j];
    assert Following(roles, j) == Following(init, j) + ("\n" + text);
    Rebracket(init[j].text, Following(init, j), "\n", text);
  }

  /** Moving the brackets of a four-part concatenation. */
  lemma Rebracket(a: string, b: string, c: string, d: string)
    ensures ((a + b) + c) + d == a + (b + (c + d))
  {
    assert (a + b) + c == a + (b + c);
    assert (a + (b + c)) + d == a + ((b + c) + d);
  }

  /** A key line starts the block of its token, holding just that line. */
  lemma BlockStarted(init: seq<LineRole>, token: string, text: string)
    ensures BlockOf(init + [KeyLine(token, text)], token, text)
  {
    var roles := init + [KeyLine(token, text)];
    assert LastKeyLineFor(roles, token) == |init|;
  }

  lemma StepSkipped(init: seq<LineRole>, st: Scan)
    requires Describes(init, st)
    ensures Step(st, Skipped) == Ok(st)
    ensures Describes(init + [Skipped], st)
  {
    var roles := init + [Skipped];
    assert roles[..|init|] == init;
    assert KeyTokens(roles) == KeyTokens(init);
    assert LastKeyLine(roles) == LastKeyLine(init);
    forall k | k in st.parsed.entries ensures BlockOf(roles, k, st.parsed.entries[k]) {
      BlockUnchanged(init, Skipped, k, st.parsed.entries[k]);
    }
  }

  lemma StepContinuation(init: seq<LineRole>, text: string, st: Scan)
    requires Describes(init, st)
    requires LastKeyLine(init) >= 0
    ensures Step(st, Indented(text)).Ok?
    ensures Describes(init + [Indented(text)], Step(st, Indented(text)).value)
  {
    var m := LastKeyLine(init);
    assert LastKeyLineFor(init, st.key) == m by {
      LastKeyLineOfCurrentKey(init);
    }
    var old_ := st.parsed.entries;
    assert st.key in old_;
    ContinuationKeepsKeys(init, text);
    ContinuationBlocks(init, text, st.key, old_);
  }

  /** An indented line adds no key line. */
  lemma ContinuationKeepsKeys(init: seq<LineRole>, text: string)
    ensures KeyTokens(init + [Indented(text)]) == KeyTokens(init)
    ensures LastKeyLine(init + [Indented(text)]) == LastKeyLine(init)
  {
    assert (init + [Indented(text)])[..|init|] == init;
  }

  /** An indented line extends the current key's block and leaves the others. */
  lemma ContinuationBlocks(init: seq<LineRole>, text: string, key: string, blocks: map<string, string>)
    requires key in blocks && LastKeyLine(init) >= 0 && LastKeyLineFor(init, key) == LastKeyLine(init)
    requires forall k | k in blocks :: BlockOf(init, k, blocks[k])
    ensures var blocks' := blocks[key := blocks[key] + "\n" + text];
            forall k | k in blocks' :: BlockOf(init + [Indented(text)], k, blocks'[k])
  {
    var blocks' := blocks[key := blocks[key] + "\n" + text];
    forall k | k in blocks' ensures BlockOf(init + [Indented(text)], k, blocks'[k]) {
      if k == key {
        BlockExtended(init, text, k, blocks[k]);
      } else {
        BlockUnchanged(init, Indented(text), k, blocks[k]);
      }
    }
  }

  lemma StepKeyLine(init: seq<LineRole>, token: string, text: string, st: Scan)
    requires Describes(init, st)
    ensures Step(st, KeyLine(token, text)).Ok?
    ensures Describes(init + [KeyLine(token, text)], Step(st, KeyLine(token, text)).value)
  {
    var roles := init + [KeyLine(token, text)];
    var parsed := st.parsed.Put(token, text);
    assert Step(st, KeyLine(token, text)) == Ok(Scan(token, parsed));
    KeyLineKeys(init, token, text);
    KeyLineBlocks(init, token, text, st.parsed.entries);
    assert parsed.entries.Keys == KeyTokens(roles);
    assert roles[|init|].token == token;
  }

  /** A key line adds its token and becomes the last key line. */
  lemma KeyLineKeys(init: seq<LineRole>, token: string, text: string)
    ensures KeyTokens(init + [KeyLine(token, text)]) == KeyTokens(init) + {token}
    ensures LastKeyLine(init + [KeyLine(token, text)]) == |init|
  {
    assert (init + [KeyLine(token, text)])[..|init|] == init;
  }

  /** A key line replaces the block of its token and leaves the others. */
  lemma KeyLineBlocks(init: seq<LineRole>, token: string, text: string, blocks: map<string, string>)
    requires forall k | k in blocks :: BlockOf(init, k, blocks[k])
    ensures var blocks' := blocks[token := text];
            forall k | k in blocks' :: BlockOf(init + [KeyLine(token, text)], k, blocks'[k])
  {
    var blocks' := blocks[token := text];
    forall k | k in blocks' ensures BlockOf(init + [KeyLine(token, text)], k, blocks'[k]) {
      if k == token {
        BlockStarted(init, token, text);
      } else {
        BlockUnchanged(init, KeyLine(token, text), k, blocks[k]);
      }
    }
  }

  /** The tokens of the key lines in the order they first appear. */
  function KeyOrder(roles: seq<LineRole>): seq<string>
  {
    if roles == [] then []
    else
      var order := KeyOrder(roles[..|roles| - 1]);
      var r := roles[|roles| - 1];
      if r.KeyLine? && r.token !in order then order + [r.token] else order
  }

  /** The first-appearance order lists each key token, and only those. */
  lemma {:induction false} KeyOrderTokens(roles: seq<LineRole>)
    ensures forall t :: t in KeyOrder(roles) <==> t in KeyTokens(roles)
  {
    if roles != [] {
      KeyOrderTokens(roles[..|roles| - 1]);
    }
  }

  /** The blocks come out in the order their keys first appear: a repeated key line
      replaces a block's text but not its place. */
  lemma {:induction false} ScanKeyOrder(roles: seq<LineRole>)
    ensures ScanRoles(roles).Ok? ==> ScanRoles(roles).value.parsed.keys == KeyOrder(roles)
  {
    if roles != [] {
      var init, r := roles[..|roles| - 1], roles[|roles| - 1];
      ScanKeyOrder(init);
      if ScanRoles(init).Ok? && r.KeyLine? {
        ScanRolesSound(init);
        KeyOrderTokens(init);
        assert r.token in ScanRoles(init).value.parsed.entries <==> r.token in KeyOrder(init);
      }
    }
  }

  /** parse_interfaces, line by line: it raises KeyError exactly when an indented line comes
      before any key line; otherwise it returns one block per distinct leading token of a
      key line, holding the LAST key line with that token and then, in order and after a
      newline each, the indented lines up to the next key line. Empty lines and lines that
      start with other whitespace neither add text nor end a block. The blocks are
      listed in the order their keys first appear. */
  lemma BlocksCharacterized(data: string)
    ensures var lines := Lines(data);
            Blocks(data).Err? <==>
              exists i :: 0 <= i < |lines| && IsContinuation(lines[i]) && forall j :: 0 <= j < i ==> !IsKeyLine(lines[j])
    ensures Blocks(data).Ok? ==> BlocksOfLines(Roles(Lines(data)), Blocks(data).value)
    ensures Blocks(data).Ok? ==> Blocks(data).value.keys == KeyOrder(Roles(Lines(data)))
  {
    var lines := Lines(data);
    var roles := Roles(lines);
    ScanRolesSound(roles);
    ScanKeyOrder(roles);
    assert forall i :: 0 <= i <= |lines| ==> (NoKeyLineBefore(roles, i) <==> forall j :: 0 <= j < i ==> !IsKeyLine(lines[j]));
  }
}
