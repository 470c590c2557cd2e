/** `Hardware.parse_filesystems` and `Hardware.parse_filesystems_info`: the file systems the
    `dir` command lists, and the byte counts it prints for each.

    A line `Directory of <fs>/` opens the record of `<fs>` (an empty one, replacing any
    earlier record of the same name); a line `<total> bytes total (<free> bytes free)`
    fills the record opened last, and raises KeyError on the key "" when no directory
    line came before it. Both regexes are written out here; the sizes are kept as raw
    byte counts. */
module Filesystems {
  import opened Basics
  import opened Text

  const DirPrefix := "Directory of "
  const TotalMark := " bytes total ("
  const FreeMark := " bytes free)"

  /** Index of the last `c` in `s`, or -1. */
  function LastIndexOfChar(s: string, c: char): (i: int)
    ensures -1 <= i < |s|
    ensures i >= 0 ==> s[i] == c
    ensures forall j :: i < j < |s| ==> s[j] != c
  {
    if s == [] then -1
    else if s[|s| - 1] == c then |s| - 1
    else LastIndexOfChar(s[..|s| - 1], c)
  }

  /** A prefix followed by a prefix of what remains is a prefix. */
  lemma PrefixThen(a: string, b: string, s: string)
    requires a <= s && b <= s[|a|..]
    ensures a + b <= s
  {
    assert a + b == s[..|a| + |b|];
  }

  /** The group of `re.match(r"^Directory of (\S+)/", line)`: `\S+` backtracks from the
      whole leading token to its last '/', which must leave at least one character. */
  function DirectoryOf(line: string): (fs: Option<string>)
    ensures fs.Some? ==> |fs.value| > 0 && forall k :: 0 <= k < |fs.value| ==> !IsSpace(fs.value[k])
    ensures fs.Some? ==> DirPrefix + fs.value + "/" <= line
  {
    if |line| < |DirPrefix| || line[..|DirPrefix|] != DirPrefix then None
    else
      var token := LeadingToken(line[|DirPrefix|..]);
      var j := LastIndexOfChar(token, '/');
      if j < 1 then None
      else
        DirectoryFound(line, token, j);
        Some(token[..j])
  }

  /** The name DirectoryOf cuts from the leading token meets its contract. */
  lemma DirectoryFound(line: string, token: string, j: int)
    requires DirPrefix <= line && token == LeadingToken(line[|DirPrefix|..])
    requires 1 <= j < |token| && token[j] == '/'
    ensures |token[..j]| > 0 && forall k :: 0 <= k < j ==> !IsSpace(token[..j][k])
    ensures DirPrefix + token[..j] + "/" <= line
  {
    PrefixThen(token[..j], "/", line[|DirPrefix|..]);
    PrefixThen(DirPrefix, token[..j] + "/", line);
    assert DirPrefix + token[..j] + "/" == DirPrefix + (token[..j] + "/");
  }

  /** The match is greedy and fails only when it must: any non-empty, whitespace-free name
      followed by '/' right after the prefix gives a match at least that long, so the name
      found runs to the last '/' of the leading token. */
  lemma DirectoryGreedy(line: string, w: string)
    requires |w| > 0 && forall k :: 0 <= k < |w| ==> !IsSpace(w[k])
    requires DirPrefix + w + "/" <= line
    ensures DirectoryOf(line).Some? && |w| <= |DirectoryOf(line).value|
  {
    var n := |DirPrefix|;
    assert line[..n] == (DirPrefix + w + "/")[..n] == DirPrefix;
    var rest := line[n..];
    assert forall k :: 0 <= k <= |w| ==> rest[k] == (w + "/")[k];
    var token := LeadingToken(rest);
    assert token[|w|] == '/';
    assert LastIndexOfChar(token, '/') >= |w|;
  }

  /** A directory line names the file system before the '/' that ends its token. */
  lemma DirectoryLine(fs: string, tail: string)
    requires |fs| > 0 && forall k :: 0 <= k < |fs| ==> !IsSpace(fs[k])
    requires tail == [] || IsSpace(tail[0])
    ensures DirectoryOf(DirPrefix + fs + "/" + tail) == Some(fs)
  {
    var line := DirPrefix + fs + "/" + tail;
    assert line[..|DirPrefix|] == DirPrefix;
    assert line[|DirPrefix|..] == (fs + "/") + tail;
    LeadingTokenOfTokenThenSpace(fs + "/", tail);
    assert LastIndexOfChar(fs + "/", '/') == |fs|;
    assert (fs + "/")[..|fs|] == fs;
  }

  /** The decimal digits of `n`, as Python's `str(n)` prints them. */
  function Decimal(n: nat): (d: string)
    ensures |d| > 0 && forall k :: 0 <= k < |d| ==> IsDigit(d[k])
    ensures DigitsValue(d) == n
  {
    var last := ('0' as int + n % 10) as char;
    if n < 10 then
      assert DigitsValue([last]) == 10 * DigitsValue([]) + n;
      [last]
    else
      var front := Decimal(n / 10);
      assert (front + [last])[..|front|] == front;
      front + [last]
  }

  /** `line` starts with the digit strings `t` and `f` around the two marks. */
  predicate CountShape(line: string, t: string, f: string)
  {
    && |t| > 0 && (forall k :: 0 <= k < |t| ==> IsDigit(t[k]))
    && |f| > 0 && (forall k :: 0 <= k < |f| ==> IsDigit(f[k]))
    && t + TotalMark + f + FreeMark <= line
  }

  /** Four pieces, each a prefix of what the ones before leave, make up a prefix. */
  lemma FourPrefixes(a: string, b: string, c: string, d: string, s: string)
    requires a <= s && b <= s[|a|..] && c <= s[|a|..][|b|..] && d <= s[|a|..][|b|..][|c|..]
    ensures a + b + c + d <= s
  {
    PrefixThen(c, d, s[|a|..][|b|..]);
    PrefixThen(b, c + d, s[|a|..]);
    PrefixThen(a, b + (c + d), s);
    assert a + b + c + d == a + (b + (c + d));
  }

  /** The digit strings and marks BytesLine finds make up the start of the line. */
  lemma CountShapeOf(line: string, total: string, free: string)
    requires total == LeadingDigits(line) && |total| > 0 && TotalMark <= line[|total|..]
    requires free == LeadingDigits(line[|total|..][|TotalMark|..]) && |free| > 0
    requires FreeMark <= line[|total|..][|TotalMark|..][|free|..]
    ensures CountShape(line, total, free)
  {
    FourPrefixes(total, TotalMark, free, FreeMark, line);
  }

  /** The two counts of `re.match(r"^(\d+) bytes total \((\d+) bytes free\)", line)`.
      Each `\d+` is followed by a space, so backtracking never shortens it. */
  function BytesLine(line: string): (r: Option<(nat, nat)>)
    ensures r.Some? ==> exists t, f :: CountShape(line, t, f) && r.value == (DigitsValue(t), DigitsValue(f))
  {
    var total := LeadingDigits(line);
    var rest := line[|total|..];
    if |total| == 0 || !(TotalMark <= rest) then None
    else
      var rest' := rest[|TotalMark|..];
      var free := LeadingDigits(rest');
      if |free| == 0 || !(FreeMark <= rest'[|free|..]) then None
      else
        CountShapeOf(line, total, free);
        Some((DigitsValue(total), DigitsValue(free)))
  }

  /** A mark followed by more text: the mark is a prefix and what follows comes after it. */
  lemma MarkThen(mark: string, x: string)
    requires mark != []
    ensures mark <= mark + x && (mark + x)[|mark|..] == x && (mark + x)[0] == mark[0]
  {
  }

  /** A byte-count line gives back the values of its two digit strings, whatever follows. */
  lemma BytesLineOf(t: string, f: string, tail: string)
    requires |t| > 0 && forall k :: 0 <= k < |t| ==> IsDigit(t[k])
    requires |f| > 0 && forall k :: 0 <= k < |f| ==> IsDigit(f[k])
    ensures BytesLine(t + (TotalMark + (f + (FreeMark + tail)))) == Some((DigitsValue(t), DigitsValue(f)))
  {
    var after := FreeMark + tail;
    var rest' := f + after;
    var rest := TotalMark + rest';
    var line := t + rest;
    assert TotalMark[0] == ' ' && FreeMark[0] == ' ';
    MarkThen(TotalMark, rest');
    MarkThen(FreeMark, tail);
    assert !IsDigit(rest[0]) && !IsDigit(after[0]);
    LeadingDigitsOfDigitsThenOther(t, rest);
    LeadingDigitsOfDigitsThenOther(f, after);
    assert line[|t|..] == rest;
    assert rest'[|f|..] == after;
  }

  /** A byte-count line as `dir` prints it gives back its two counts, whatever follows. */
  lemma BytesLineRoundTrip(total: nat, free: nat, tail: string)
    ensures BytesLine(Decimal(total) + TotalMark + Decimal(free) + FreeMark + tail) == Some((total, free))
  {
    var t, f := Decimal(total), Decimal(free);
    BytesLineOf(t, f, tail);
    Regroup(t, TotalMark, f, FreeMark, tail);
  }

  lemma Regroup(a: string, b: string, c: string, d: string, e: string)
    ensures a + b + c + d + e == a + (b + (c + (d + e)))
  {
  }

  /** How parse_filesystems_info reads one line: the directory test comes first. */
  datatype LineKind = DirLine(fs: string) | CountLine(total: nat, free: nat) | OtherLine

  function Kind(line: string): (k: LineKind)
    ensures k.DirLine? <==> DirectoryOf(line).Some?
  {
    match DirectoryOf(line)
    case Some(fs) => DirLine(fs)
    case None =>
      match BytesLine(line)
      case Some(counts) => CountLine(counts.0, counts.1)
      case None => OtherLine
  }

  function Kinds(lines: seq<string>): (kinds: seq<LineKind>)
    ensures |kinds| == |lines| && forall i :: 0 <= i < |lines| ==> kinds[i] == Kind(lines[i])
  {
    seq(|lines|, i requires 0 <= i < |lines| => Kind(lines[i]))
  }

  /** `re.findall(r"^Directory of (\S+)/", data, re.M)`, given the kinds of the lines of
      `data`: `^` matches at each line start and `\S` never crosses a newline. */
  function DirNames(kinds: seq<LineKind>): seq<string>
  {
    if kinds == [] then []
    else
      DirNames(kinds[..|kinds| - 1]) +
      match kinds[|kinds| - 1]
      case DirLine(fs) => [fs]
      case _ => []
  }

  /** parse_filesystems. */
  function ListFilesystems(data: string): seq<string>
  {
    DirNames(Kinds(Lines(data)))
  }

  /** The record of one file system: opened, then possibly given its byte counts. */
  datatype FsInfo = Unfilled | Filled(totalBytes: nat, freeBytes: nat)

  /** The loop state of parse_filesystems_info: the current file system and the records. */
  datatype FsScan = FsScan(fs: string, facts: map<string, FsInfo>)

  /** One iteration of the loop. */
  function FsStep(st: FsScan, k: LineKind): Result<FsScan>
  {
    match k
    case DirLine(fs) => Ok(FsScan(fs, st.facts[fs := Unfilled]))
    case OtherLine => Ok(st)
    case CountLine(total, free) =>
      if st.fs in st.facts then Ok(FsScan(st.fs, st.facts[st.fs := Filled(total, free)]))
      else Err(KeyError(st.fs))
  }

  /** The loop run over the kinds of a sequence of lines, from `fs = ""` and `facts = dict()`. */
  function FsScanLines(kinds: seq<LineKind>): Result<FsScan>
  {
    if kinds == [] then Ok(FsScan("", map[]))
    else
      match FsScanLines(kinds[..|kinds| - 1])
      case Err(e) => Err(e)
      case Ok(st) => FsStep(st, kinds[|kinds| - 1])
  }

  /** What parse_filesystems_info returns for `data`, or the KeyError it raises. */
  function FilesystemsInfo(data: string): Result<map<string, FsInfo>>
  {
    match FsScanLines(Kinds(Lines(data)))
    case Err(e) => Err(e)
    case Ok(st) => Ok(st.facts)
  }

  /** parse_filesystems_info itself. */
  method ParseFilesystemsInfo(data: string) returns (r: Result<map<string, FsInfo>>)
    ensures r == FilesystemsInfo(data)
  {
    var lines := Lines(data);
    ghost var kinds := Kinds(lines);
    var fs := "";
    var facts: map<string, FsInfo> := map[];
    var i := 0;
    while i < |lines|
      invariant 0 <= i <= |lines|
      invariant FsScanLines(kinds[..i]) == Ok(FsScan(fs, facts))
    {
      var line := lines[i];
      assert kinds[..i + 1][..i] == kinds[..i];
      i := i + 1;
      var dir := DirectoryOf(line);
      if dir.Some? {
        fs := dir.value;
        facts := facts[fs := Unfilled];
        continue;
      }
      var counts := BytesLine(line);
      if counts.Some? {
        if fs !in facts {
          FsErrorSticks(kinds, i);
          return Err(KeyError(fs));
        }
        facts := facts[fs := Filled(counts.value.0, counts.value.1)];
      }
    }
    assert kinds[..i] == kinds;
    return Ok(facts);
  }

  /** Once the loop has raised, later lines change nothing. */
  lemma {:induction false} FsErrorSticks(kinds: seq<LineKind>, j: nat)
    requires j <= |kinds| && FsScanLines(kinds[..j]).Err?
    ensures FsScanLines(kinds) == FsScanLines(kinds[..j])
    decreases |kinds|
  {
    if j < |kinds| {
      var init := kinds[..|kinds| - 1];
      assert init[..j] == kinds[..j];
      FsErrorSticks(init, j);
    } else {
      assert kinds[..j] == kinds;
    }
  }

  // ---------------------------------------------------------------------------
  // What the records are, stated line by line.

  /** No directory line among the first `i` lines. */
  ghost predicate NoDirBefore(kinds: seq<LineKind>, i: int)
  {
    forall j :: 0 <= j < i && j < |kinds| ==> !kinds[j].DirLine?
  }

  /** Index of the last directory line naming `fs`, or -1. */
  function LastDirFor(kinds: seq<LineKind>, fs: string): (j: int)
    ensures -1 <= j < |kinds|
    ensures j >= 0 ==> kinds[j] == DirLine(fs)
    ensures forall j' :: j < j' < |kinds| ==> kinds[j'] != DirLine(fs)
  {
    if kinds == [] then -1
    else if kinds[|kinds| - 1] == DirLine(fs) then |kinds| - 1
    else LastDirFor(kinds[..|kinds| - 1], fs)
  }

  /** Index of the last directory line, or -1. */
  function LastDir(kinds: seq<LineKind>): (m: int)
    ensures -1 <= m < |kinds|
    ensures m >= 0 ==> kinds[m].DirLine?
    ensures forall j :: m < j < |kinds| ==> !kinds[j].DirLine?
  {
    if kinds == [] then -1
    else if kinds[|kinds| - 1].DirLine? then |kinds| - 1
    else LastDir(kinds[..|kinds| - 1])
  }

  /** The record the lines from index `i` on leave: the counts of the last byte-count line
      before the next directory line, or `cur`. */
  function Fill(kinds: seq<LineKind>, i: nat, cur: FsInfo): FsInfo
    decreases |kinds| - i
  {
    if i >= |kinds| || kinds[i].DirLine? then cur
    else Fill(kinds, i + 1, if kinds[i].CountLine? then Filled(kinds[i].total, kinds[i].free) else cur)
  }

  /** `info` is the record of `fs`: the last directory line naming `fs`, filled by the
      byte-count lines after it. */
  ghost predicate RecordOf(kinds: seq<LineKind>, fs: string, info: FsInfo)
  {
    var j := LastDirFor(kinds, fs);
    0 <= j && info == Fill(kinds, j + 1, Unfilled)
  }

  /** The records of the lines: one per file system some directory line names. */
  ghost predicate RecordsOfLines(kinds: seq<LineKind>, facts: map<string, FsInfo>)
  {
    && (forall fs :: fs in facts <==> LastDirFor(kinds, fs) >= 0)
    && forall fs | fs in facts :: RecordOf(kinds, fs, facts[fs])
  }

  ghost predicate FsDescribes(kinds: seq<LineKind>, st: FsScan)
  {
    && RecordsOfLines(kinds, st.facts)
    && var m := LastDir(kinds);
       st.fs == if m < 0 then "" else kinds[m].fs
  }

  /** The last directory line is the last one naming its own file system. */
  lemma {:induction false} LastDirOfCurrent(kinds: seq<LineKind>)
    requires LastDir(kinds) >= 0
    ensures LastDirFor(kinds, kinds[LastDir(kinds)].fs) == LastDir(kinds)
  {
    var n := |kinds| - 1;
    if !kinds[n].DirLine? {
      var init := kinds[..n];
      LastDirOfCurrent(init);
      assert init[LastDir(init)] == kinds[LastDir(kinds)];
    }
  }

  /** No directory line from index `i` on. */
  ghost predicate NoDirFrom(kinds: seq<LineKind>, i: nat)
  {
    forall j :: i <= j < |kinds| ==> !kinds[j].DirLine?
  }

  /** A line after the lines of a record changes it only while no directory line has
      come, and then only when it holds counts. */
  lemma {:induction false} FillSnoc(init: seq<LineKind>, i: nat, k: LineKind, cur: FsInfo)
    requires i <= |init|
    ensures Fill(init + [k], i, cur) ==
            if NoDirFrom(init, i) && k.CountLine? then Filled(k.total, k.free) else Fill(init, i, cur)
    decreases |init| - i
  {
    var kinds := init + [k];
    if i < |init| {
      assert kinds[i] == init[i];
      if !init[i].DirLine? {
        FillSnoc(init, i + 1, k, if init[i].CountLine? then Filled(init[i].total, init[i].free) else cur);
        assert NoDirFrom(init, i) == NoDirFrom(init, i + 1);
      }
    } else {
      assert kinds[i] == k;
    }
  }

  /** A line that is not a directory line for `fs` leaves `fs`'s last directory line. */
  lemma LastDirForSnoc(init: seq<LineKind>, k: LineKind, fs: string)
    requires k != DirLine(fs)
    ensures LastDirFor(init + [k], fs) == LastDirFor(init, fs)
  {
    assert (init + [k])[..|init|] == init;
  }

  /** A line that neither opens `fs` again nor fills it while it is current leaves its record. */
  lemma RecordUnchanged(init: seq<LineKind>, k: LineKind, fs: string, info: FsInfo)
    requires RecordOf(init, fs, info)
    requires k != DirLine(fs)
    requires k.CountLine? ==> LastDirFor(init, fs) < LastDir(init)
    ensures RecordOf(init + [k], fs, info)
  {
    var j := LastDirFor(init, fs);
    LastDirForSnoc(init, k, fs);
    FillSnoc(init, j + 1, k, Unfilled);
    if k.CountLine? {
      var m := LastDir(init);
      assert init[m].DirLine?;
    }
  }

  /** A byte-count line fills the record of the current file system. */
  lemma RecordFilled(init: seq<LineKind>, k: LineKind, fs: string, info: FsInfo)
    requires RecordOf(init, fs, info)
    requires k.CountLine? && LastDirFor(init, fs) == LastDir(init)
    ensures RecordOf(init + [k], fs, Filled(k.total, k.free))
  {
    var j := LastDirFor(init, fs);
    LastDirForSnoc(init, k, fs);
    FillSnoc(init, j + 1, k, Unfilled);
  }

  /** A directory line opens an empty record for its file system. */
  lemma RecordOpened(init: seq<LineKind>, k: LineKind)
    requires k.DirLine?
    ensures RecordOf(init + [k], k.fs, Unfilled)
  {
    var kinds := init + [k];
    assert LastDirFor(kinds, k.fs) == |init|;
  }

  lemma FsStepDirectory(init: seq<LineKind>, k: LineKind, st: FsScan)
    requires k.DirLine?
    requires FsDescribes(init, st)
    ensures FsStep(st, k).Ok?
    ensures FsDescribes(init + [k], FsStep(st, k).value)
  {
    var kinds := init + [k];
    var st' := FsScan(k.fs, st.facts[k.fs := Unfilled]);
    assert FsStep(st, k) == Ok(st');
    assert LastDir(kinds) == |init|;
    forall fs ensures fs in st'.facts <==> LastDirFor(kinds, fs) >= 0 {
      if fs != k.fs {
        LastDirForSnoc(init, k, fs);
      }
    }
    forall fs | fs in st'.facts ensures RecordOf(kinds, fs, st'.facts[fs]) {
      if fs == k.fs {
        RecordOpened(init, k);
      } else {
        RecordUnchanged(init, k, fs, st.facts[fs]);
      }
    }
  }

  lemma FsStepOther(init: seq<LineKind>, st: FsScan)
    requires FsDescribes(init, st)
    ensures FsStep(st, OtherLine) == Ok(st)
    ensures FsDescribes(init + [OtherLine], st)
  {
    var kinds := init + [OtherLine];
    assert LastDir(kinds) == LastDir(init);
    forall fs ensures LastDirFor(kinds, fs) == LastDirFor(init, fs) {
      LastDirForSnoc(init, OtherLine, fs);
    }
    forall fs | fs in st.facts ensures RecordOf(kinds, fs, st.facts[fs]) {
      RecordUnchanged(init, OtherLine, fs, st.facts[fs]);
    }
  }

  lemma FsStepCounts(init: seq<LineKind>, k: LineKind, st: FsScan)
    requires k.CountLine?
    requires FsDescribes(init, st)
    requires LastDir(init) >= 0
    ensures FsStep(st, k).Ok?
    ensures FsDescribes(init + [k], FsStep(st, k).value)
  {
    var kinds := init + [k];
    var m := LastDir(init);
    assert LastDirFor(init, st.fs) == m by {
      LastDirOfCurrent(init);
    }
    assert st.fs in st.facts;
    var st' := FsScan(st.fs, st.facts[st.fs := Filled(k.total, k.free)]);
    assert FsStep(st, k) == Ok(st');
    assert LastDir(kinds) == m;
    forall fs ensures LastDirFor(kinds, fs) == LastDirFor(init, fs) {
      LastDirForSnoc(init, k, fs);
    }
    forall fs | fs in st'.facts ensures RecordOf(kinds, fs, st'.facts[fs]) {
      if fs == st.fs {
        RecordFilled(init, k, fs, st.facts[fs]);
      } else {
        RecordUnchanged(init, k, fs, st.facts[fs]);
      }
    }
  }

  /** One more line: it raises exactly when it holds counts and no directory line came
      before, and the key it raises on is "". */
  lemma FsStepSound(kinds: seq<LineKind>, st: FsScan)
    requires kinds != [] && FsDescribes(kinds[..|kinds| - 1], st)
    ensures var k := kinds[|kinds| - 1];
            FsStep(st, k).Err? <==> k.CountLine? && NoDirBefore(kinds, |kinds| - 1)
    ensures FsStep(st, kinds[|kinds| - 1]).Err? ==> FsStep(st, kinds[|kinds| - 1]) == Err(KeyError(""))
    ensures FsStep(st, kinds[|kinds| - 1]).Ok? ==> FsDescribes(kinds, FsStep(st, kinds[|kinds| - 1]).value)
  {
    var init, k := kinds[..|kinds| - 1], kinds[|kinds| - 1];
    assert kinds == init + [k];
    assert NoDirBefore(kinds, |init|) == NoDirBefore(init, |init|);
    var m := LastDir(init);
    assert NoDirBefore(init, |init|) <==> m < 0;
    match k
    case DirLine(_) => FsStepDirectory(init, k, st);
    case OtherLine => FsStepOther(init, st);
    case CountLine(_, _) =>
      if m >= 0 {
        FsStepCounts(init, k, st);
      } else {
        assert st.fs == "" && "" !in st.facts;
      }
  }

  /** When the loop returns, it returns the records of the lines. */
  lemma {:induction false} FsScanSound(kinds: seq<LineKind>)
    ensures FsScanLines(kinds).Ok? ==> FsDescribes(kinds, FsScanLines(kinds).value)
  {
    if kinds != [] {
      var n := |kinds| - 1;
      var init := kinds[..n];
      FsScanSound(init);
      if FsScanLines(init).Ok? {
        FsStepSound(kinds, FsScanLines(init).value);
      }
    }
  }

  /** The loop raises KeyError("") exactly on a byte-count line before any directory line. */
  lemma {:induction false} FsScanRaises(kinds: seq<LineKind>)
    ensures FsScanLines(kinds).Err? <==>
            exists i :: 0 <= i < |kinds| && kinds[i].CountLine? && NoDirBefore(kinds, i)
    ensures FsScanLines(kinds).Err? ==> FsScanLines(kinds) == Err(KeyError(""))
  {
    if kinds == [] {
      return;
    }
    var n := |kinds| - 1;
    var init := kinds[..n];
    FsScanRaises(init);
    forall j | 0 <= j < n ensures kinds[j] == init[j] { }
    match FsScanLines(init)
    case Err(e) =>
      var i :| 0 <= i < |init| && init[i].CountLine? && NoDirBefore(init, i);
      assert kinds[i].CountLine? && NoDirBefore(kinds, i);
    case Ok(st) =>
      FsScanSound(init);
      FsStepSound(kinds, st);
      forall i | 0 <= i < n ensures NoDirBefore(kinds, i) == NoDirBefore(init, i) { }
  }

  /** The names parse_filesystems lists are the file systems some directory line opens. */
  lemma {:induction false} DirNamesListed(kinds: seq<LineKind>, fs: string)
    ensures fs in DirNames(kinds) <==> LastDirFor(kinds, fs) >= 0
  {
    if kinds != [] {
      DirNamesListed(kinds[..|kinds| - 1], fs);
    }
  }

  /** parse_filesystems_info, line by line: it raises KeyError("") exactly when a byte-count
      line comes before any directory line; otherwise it holds one record for each name
      parse_filesystems lists, opened empty by the last directory line naming it and
      filled by the last byte-count line after that one and before the next directory
      line. */
  lemma FilesystemsInfoCharacterized(data: string)
    ensures var kinds := Kinds(Lines(data));
            FilesystemsInfo(data).Err? <==> exists i :: 0 <= i < |kinds| && kinds[i].CountLine? && NoDirBefore(kinds, i)
    ensures FilesystemsInfo(data).Err? ==> FilesystemsInfo(data) == Err(KeyError(""))
    ensures FilesystemsInfo(data).Ok? ==>
              && (forall fs :: fs in FilesystemsInfo(data).value <==> fs in ListFilesystems(data))
              && forall fs | fs in FilesystemsInfo(data).value :: RecordOf(Kinds(Lines(data)), fs, FilesystemsInfo(data).value[fs])
  {
    var kinds := Kinds(Lines(data));
    FsScanRaises(kinds);
    FsScanSound(kinds);
    forall fs ensures fs in ListFilesystems(data) <==> LastDirFor(kinds, fs) >= 0 {
      DirNamesListed(kinds, fs);
    }
  }
}
