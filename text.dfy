/** The Python string operations the facts code relies on, written out exactly:
    str.split with a separator, str.strip, the membership test `sub in s`,
    and the two regex atoms `^(\S+)` and `^(\d+)`.
    Python's `\s`, `str.isspace` and `str.strip()` share one set of whitespace characters. */
module Text {

  /** The characters Python's str.isspace() accepts (and `\s` matches in a str pattern):
      U+0009 to U+000D, U+001C to U+0020, U+0085, U+00A0, U+1680, U+2000 to U+200A,
      U+2028, U+2029, U+202F, U+205F and U+3000. */
  predicate IsSpace(c: char)
  {
    || '\t' <= c <= '\r'
    || '\U{1C}' <= c <= ' '
    || c == '\U{85}' || c == '\U{A0}' || c == '\U{1680}'
    || '\U{2000}' <= c <= '\U{200A}'
    || c == '\U{2028}' || c == '\U{2029}' || c == '\U{202F}' || c == '\U{205F}' || c == '\U{3000}'
  }

  /** ASCII decimal digit (the model's reading of `\d`). */
  predicate IsDigit(c: char)
  {
    '0' <= c <= '9'
  }

  /** `sub` occurs in `s` starting at index `i`. */
  predicate OccursAt(s: string, sub: string, i: int)
  {
    0 <= i <= |s| - |sub| && s[i..i + |sub|] == sub
  }

  /** Python's `sub in s`. */
  predicate Contains(s: string, sub: string)
  {
    exists i | 0 <= i <= |s| - |sub| :: OccursAt(s, sub, i)
  }

  /** Python's `s.split(sep)` for a non-empty separator: occurrences are taken
      left to right without overlap, and the pieces between them are returned. */
  function Split(s: string, sep: string): (pieces: seq<string>)
    requires |sep| > 0
    ensures |pieces| >= 1
    decreases |s|
  {
    if |s| < |sep| then [s]
    else if s[..|sep|] == sep then [""] + Split(s[|sep|..], sep)
    else
      var rest := Split(s[1..], sep);
      [[s[0]] + rest[0]] + rest[1..]
  }

  /** Python's `sep.join(pieces)`. */
  function Join(pieces: seq<string>, sep: string): string
  {
    if |pieces| == 0 then ""
    else if |pieces| == 1 then pieces[0]
    else pieces[0] + sep + Join(pieces[1..], sep)
  }

  /** `data.split("\n")`: the lines of a text, each without its newline. */
  function Lines(data: string): (lines: seq<string>)
    ensures |lines| >= 1
  {
    Split(data, "\n")
  }

  /** Splitting and joining again with the same separator gives back the text. */
  lemma {:induction false} SplitJoin(s: string, sep: string)
    requires |sep| > 0
    ensures Join(Split(s, sep), sep) == s
    decreases |s|
  {
    if |s| < |sep| {
    } else if s[..|sep|] == sep {
      var rest := Split(s[|sep|..], sep);
      var pieces := [""] + rest;
      assert Split(s, sep) == pieces;
      assert pieces[0] == "" && pieces[1..] == rest;
      SplitJoin(s[|sep|..], sep);
      assert Join(pieces, sep) == "" + sep + Join(rest, sep);
      assert s == sep + s[|sep|..];
    } else {
      var rest := Split(s[1..], sep);
      var pieces := [[s[0]] + rest[0]] + rest[1..];
      assert Split(s, sep) == pieces;
      SplitJoin(s[1..], sep);
      assert s == [s[0]] + s[1..];
      if |rest| > 1 {
        assert pieces[1..] == rest[1..];
        var tail := Join(rest[1..], sep);
        assert Join(rest, sep) == rest[0] + sep + tail;
        assert Join(pieces, sep) == ([s[0]] + rest[0]) + sep + tail;
        ConsJoin(s[0], rest[0], sep, tail);
      }
    }
  }

  /** Re-bracketing a piece that starts with one character. */
  lemma ConsJoin(c: char, x: string, sep: string, y: string)
    ensures ([c] + x) + sep + y == [c] + (x + sep + y)
  {
  }

  /** The first piece of a split is a prefix of the text. */
  lemma {:induction false} FirstPieceIsPrefix(s: string, sep: string)
    requires |sep| > 0
    ensures Split(s, sep)[0] <= s
    decreases |s|
  {
    if |s| < |sep| {
    } else if s[..|sep|] == sep {
      assert Split(s, sep)[0] == "";
    } else {
      var rest := Split(s[1..], sep);
      FirstPieceIsPrefix(s[1..], sep);
      assert Split(s, sep)[0] == [s[0]] + rest[0];
      assert s == [s[0]] + s[1..];
    }
  }

  /** No piece of a split contains the separator. */
  lemma {:induction false} SplitPiecesAvoidSeparator(s: string, sep: string)
    requires |sep| > 0
    ensures forall p :: p in Split(s, sep) ==> !Contains(p, sep)
    decreases |s|
  {
    if |s| < |sep| {
    } else if s[..|sep|] == sep {
      SplitPiecesAvoidSeparator(s[|sep|..], sep);
      assert Split(s, sep) == [""] + Split(s[|sep|..], sep);
    } else {
      var rest := Split(s[1..], sep);
      SplitPiecesAvoidSeparator(s[1..], sep);
      FirstPieceIsPrefix(s[1..], sep);
      assert rest[0] in rest;
      var first := [s[0]] + rest[0];
      FirstPieceAvoidsSeparator(s, sep, rest[0]);
      assert Split(s, sep) == [first] + rest[1..];
      forall p | p in Split(s, sep) ensures !Contains(p, sep) {
        if p != first {
          assert p in rest[1..];
          assert p in rest;
        }
      }
    }
  }

  /** A text that does not start with the separator, cut after one character plus a
      prefix of the rest that avoids the separator, avoids it too. */
  lemma FirstPieceAvoidsSeparator(s: string, sep: string, piece: string)
    requires |sep| > 0 && |s| >= |sep| && s[..|sep|] != sep
    requires piece <= s[1..] && !Contains(piece, sep)
    ensures !Contains([s[0]] + piece, sep)
  {
    var first := [s[0]] + piece;
    assert first <= s;
    forall i | 0 <= i <= |first| - |sep| ensures !OccursAt(first, sep, i) {
      if i == 0 {
        assert first[..|sep|] == s[..|sep|];
      } else {
        assert first[i..i + |sep|] == piece[i - 1..i - 1 + |sep|];
        assert !OccursAt(piece, sep, i - 1);
      }
    }
  }

  /** Python's `s.lstrip()`. */
  function LStrip(s: string): string
  {
    if s != [] && IsSpace(s[0]) then LStrip(s[1..]) else s
  }

  /** Python's `s.rstrip()`. */
  function RStrip(s: string): string
  {
    if s != [] && IsSpace(s[|s| - 1]) then RStrip(s[..|s| - 1]) else s
  }

  /** `lstrip()` cuts whitespace off the front and stops at the first other character. */
  lemma {:induction false} LStripMeaning(s: string)
    ensures |LStrip(s)| <= |s| && LStrip(s) == s[|s| - |LStrip(s)|..]
    ensures forall k :: 0 <= k < |s| - |LStrip(s)| ==> IsSpace(s[k])
    ensures LStrip(s) != [] ==> !IsSpace(LStrip(s)[0])
  {
    if s != [] && IsSpace(s[0]) {
      var t := s[1..];
      LStripMeaning(t);
      var n := |LStrip(t)|;
      assert LStrip(s) == LStrip(t);
      assert t[|t| - n..] == s[|s| - n..];
      forall k | 0 <= k < |s| - n ensures IsSpace(s[k]) {
        if k > 0 {
          assert s[k] == t[k - 1];
        }
      }
    }
  }

  /** `rstrip()` cuts whitespace off the back and stops at the last other character. */
  lemma {:induction false} RStripMeaning(s: string)
    ensures RStrip(s) <= s
    ensures forall k :: |RStrip(s)| <= k < |s| ==> IsSpace(s[k])
    ensures RStrip(s) != [] ==> !IsSpace(RStrip(s)[|RStrip(s)| - 1])
  {
    if s != [] && IsSpace(s[|s| - 1]) {
      RStripMeaning(s[..|s| - 1]);
    }
  }

  /** `r` is `s` with the whitespace margins of width `i` (front) and the rest (back) cut off. */
  ghost predicate Framed(s: string, r: string, i: int)
  {
    && 0 <= i <= |s| - |r|
    && r == s[i..i + |r|]
    && (forall k :: 0 <= k < i ==> IsSpace(s[k]))
    && (forall k :: i + |r| <= k < |s| ==> IsSpace(s[k]))
  }

  /** Python's `s.strip()`. */
  function Strip(s: string): string
  {
    RStrip(LStrip(s))
  }

  /** What `strip()` keeps: a slice of the text with only whitespace around it, starting
      and ending with a non-whitespace character. */
  lemma StripMeaning(s: string)
    ensures exists i :: Framed(s, Strip(s), i)
    ensures Strip(s) != [] ==> !IsSpace(Strip(s)[0]) && !IsSpace(Strip(s)[|Strip(s)| - 1])
  {
    var left := LStrip(s);
    LStripMeaning(s);
    RStripMeaning(left);
    var r := Strip(s);
    var i := |s| - |left|;
    assert r == s[i..i + |r|] by {
      assert r == left[..|r|];
    }
    forall k | i + |r| <= k < |s| ensures IsSpace(s[k]) {
      assert s[k] == left[k - i];
    }
    assert Framed(s, r, i);
  }

  /** The group of `re.match(r"^(\S+)", s)`: the longest prefix free of whitespace
      (empty when the match fails). */
  function LeadingToken(s: string): (t: string)
    ensures t <= s
    ensures forall k :: 0 <= k < |t| ==> !IsSpace(t[k])
    ensures |t| < |s| ==> IsSpace(s[|t|])
  {
    if s == [] || IsSpace(s[0]) then [] else [s[0]] + LeadingToken(s[1..])
  }

  /** The group of `re.match(r"^(\d+)", s)`: the longest prefix of digits. */
  function LeadingDigits(s: string): (d: string)
    ensures d <= s
    ensures forall k :: 0 <= k < |d| ==> IsDigit(d[k])
    ensures |d| < |s| ==> !IsDigit(s[|d|])
  {
    if s == [] || !IsDigit(s[0]) then [] else [s[0]] + LeadingDigits(s[1..])
  }

  /** Python's `int(d)` on a string of ASCII digits. */
  function DigitsValue(d: string): nat
    requires forall k :: 0 <= k < |d| ==> IsDigit(d[k])
  {
    if d == [] then 0
    else
      var last := d[|d| - 1];
      assert IsDigit(last);
      10 * DigitsValue(d[..|d| - 1]) + (last as int - '0' as int)
  }

  /** A token followed by whitespace or by the end of the text is the whole leading token. */
  lemma {:induction false} LeadingTokenOfTokenThenSpace(t: string, rest: string)
    requires forall k :: 0 <= k < |t| ==> !IsSpace(t[k])
    requires rest == [] || IsSpace(rest[0])
    ensures LeadingToken(t + rest) == t
  {
    if t != [] {
      assert (t + rest)[1..] == t[1..] + rest;
      LeadingTokenOfTokenThenSpace(t[1..], rest);
    } else {
      assert t + rest == rest;
    }
  }

  /** Digits followed by a non-digit or by the end of the text are the whole leading digits. */
  lemma {:induction false} LeadingDigitsOfDigitsThenOther(d: string, rest: string)
    requires forall k :: 0 <= k < |d| ==> IsDigit(d[k])
    requires rest == [] || !IsDigit(rest[0])
    ensures LeadingDigits(d + rest) == d
  {
    if d != [] {
      assert (d + rest)[1..] == d[1..] + rest;
      LeadingDigitsOfDigitsThenOther(d[1..], rest);
    } else {
      assert d + rest == rest;
    }
  }

  /** Python's `s.lower()` restricted to ASCII letters. */
  function Lower(s: string): string
  {
    seq(|s|, k requires 0 <= k < |s| => if 'A' <= s[k] <= 'Z' then (s[k] as int + 32) as char else s[k])
  }

  /** How many times `c` occurs in `s`. */
  function CountChar(s: string, c: char): nat
  {
    if s == [] then 0 else (if s[0] == c then 1 else 0) + CountChar(s[1..], c)
  }

  /** Index of the first `c` in `s`, or `|s|`. */
  function IndexOfChar(s: string, c: char): (i: nat)
    ensures i <= |s|
    ensures forall j :: 0 <= j < i ==> s[j] != c
    ensures i < |s| ==> s[i] == c
    ensures i < |s| <==> CountChar(s, c) > 0
  {
    if s == [] then 0 else if s[0] == c then 0 else 1 + IndexOfChar(s[1..], c)
  }

  /** The occurrences of `c` after its first one. */
  lemma {:induction false} CountAfterFirst(s: string, c: char)
    ensures IndexOfChar(s, c) < |s| ==> CountChar(s, c) == 1 + CountChar(s[IndexOfChar(s, c) + 1..], c)
    ensures IndexOfChar(s, c) == |s| ==> CountChar(s, c) == 0
  {
    if s != [] && s[0] != c {
      CountAfterFirst(s[1..], c);
      var i' := IndexOfChar(s[1..], c);
      if i' < |s| - 1 {
        assert s[1..][i' + 1..] == s[i' + 2..];
      }
    }
  }

  /** Splitting on a character that occurs once gives the texts before and after it. */
  lemma SplitAtOnly(s: string, c: char)
    requires CountChar(s, c) == 1
    ensures var i := IndexOfChar(s, c); Split(s, [c]) == [s[..i], s[i + 1..]]
  {
    var i := IndexOfChar(s, c);
    var rest := s[i + 1..];
    SplitOnChar(s, c);
    CountAfterFirst(s, c);
    SplitOnChar(rest, c);
    assert IndexOfChar(rest, c) == |rest|;
    assert rest[..|rest|] == rest;
    var pieces := Split(s, [c]);
    assert pieces[1..] == [rest];
    assert pieces == [pieces[0]] + pieces[1..];
  }

  /** Splitting on a one-character separator: one piece more than there are separators,
      the first piece runs up to the first separator, and the rest is the split of what
      follows it. */
  lemma {:induction false} SplitOnChar(s: string, c: char)
    ensures |Split(s, [c])| == CountChar(s, c) + 1
    ensures Split(s, [c])[0] == s[..IndexOfChar(s, c)]
    ensures IndexOfChar(s, c) < |s| ==> Split(s, [c])[1..] == Split(s[IndexOfChar(s, c) + 1..], [c])
    decreases |s|
  {
    if |s| < 1 {
    } else if s[..1] == [c] {
      assert s[0] == c;
      SplitOnChar(s[1..], c);
    } else {
      assert s[0] != c;
      SplitOnChar(s[1..], c);
      var i' := IndexOfChar(s[1..], c);
      assert s[..i' + 1] == [s[0]] + s[1..][..i'];
      if i' < |s| - 1 {
        assert s[1..][i' + 1..] == s[i' + 2..];
      }
    }
  }
}
