/**
 * The string handling `parseStep` relies on (src/step-parser.ts): the
 * white-space and line-terminator classes of ECMAScript, runs of a character
 * class, `trim`, `split`, decimal numerals, and the two `replace` calls that
 * remove comments.
 */
module StepText {
  import opened Wrappers

  /** ECMAScript line terminators: LF, CR, LINE SEPARATOR, PARAGRAPH SEPARATOR. */
  predicate IsLineTerminator(c: char) {
    c == '\n' || c == '\r' || c == '\U{2028}' || c == '\U{2029}'
  }

  /** ECMAScript white space and line terminators: the class `\s` and what `trim` removes. */
  predicate IsSpace(c: char) {
    IsLineTerminator(c) || c == ' ' || c == '\t' || c == '\U{000B}' || c == '\U{000C}'
    || c == '\U{00A0}' || c == '\U{FEFF}' || c == '\U{1680}' || ('\U{2000}' <= c <= '\U{200A}')
    || c == '\U{202F}' || c == '\U{205F}' || c == '\U{3000}'
  }

  /** `\d`. */
  predicate IsDigit(c: char) {
    '0' <= c <= '9'
  }

  /** Length of the longest prefix of `s` made of characters in `inClass`. */
  function Run(s: string, inClass: char -> bool): (k: nat)
    ensures k <= |s|
    ensures forall i | 0 <= i < k :: inClass(s[i])
    ensures k < |s| ==> !inClass(s[k])
  {
    if s != [] && inClass(s[0]) then 1 + Run(s[1..], inClass) else 0
  }

  /** A run followed by a character outside the class (or by nothing) is read whole. */
  lemma {:induction false} RunConcat(a: string, b: string, inClass: char -> bool)
    requires forall i | 0 <= i < |a| :: inClass(a[i])
    requires b == [] || !inClass(b[0])
    ensures Run(a + b, inClass) == |a|
  {
    var s := a + b;
    assert forall i | 0 <= i < |a| :: s[i] == a[i];
    assert |a| < |s| ==> s[|a|] == b[0];
  }

  // ---------------------------------------------------------------------------
  // trim

  /** `\s*`: the text after its leading white space. */
  function SkipSpace(s: string): (r: string)
    ensures r == [] || !IsSpace(r[0])
  {
    s[Run(s, IsSpace)..]
  }

  /** The text before its trailing white space. */
  function TrimEnd(s: string): (r: string)
    ensures r == [] || !IsSpace(r[|r| - 1])
    decreases |s|
  {
    if s != [] && IsSpace(s[|s| - 1]) then TrimEnd(s[..|s| - 1]) else s
  }

  /** `String.prototype.trim`. */
  function Trim(s: string): (r: string)
    ensures r == [] || (!IsSpace(r[0]) && !IsSpace(r[|r| - 1]))
  {
    TrimEndPrefix(SkipSpace(s));
    TrimEnd(SkipSpace(s))
  }

  /** What `TrimEnd` keeps is a prefix of its input. */
  lemma {:induction false} TrimEndPrefix(s: string)
    ensures |TrimEnd(s)| <= |s| && TrimEnd(s) == s[..|TrimEnd(s)|]
    decreases |s|
  {
    if s != [] && IsSpace(s[|s| - 1]) {
      TrimEndPrefix(s[..|s| - 1]);
    }
  }

  lemma {:induction false} TrimEndPadded(core: string, back: string)
    requires forall i | 0 <= i < |back| :: IsSpace(back[i])
    requires core == [] || !IsSpace(core[|core| - 1])
    ensures TrimEnd(core + back) == core
    decreases |back|
  {
    if back == [] {
      assert core + back == core;
    } else {
      var b := back[..|back| - 1];
      assert (core + back)[..|core + back| - 1] == core + b;
      TrimEndPadded(core, b);
    }
  }

  /** `trim` removes exactly the white space around the text and nothing inside it. */
  lemma {:induction false} TrimPadded(front: string, core: string, back: string)
    requires forall i | 0 <= i < |front| :: IsSpace(front[i])
    requires forall i | 0 <= i < |back| :: IsSpace(back[i])
    requires core == [] || (!IsSpace(core[0]) && !IsSpace(core[|core| - 1]))
    ensures Trim(front + core + back) == core
  {
    var s := front + core + back;
    if core == [] {
      assert s == front + back;
      assert forall i | 0 <= i < |s| :: IsSpace(s[i]);
      RunConcat(s, [], IsSpace);
      assert SkipSpace(s) == [];
    } else {
      assert s == front + (core + back);
      RunConcat(front, core + back, IsSpace);
      assert SkipSpace(s) == core + back;
      TrimEndPadded(core, back);
    }
  }

  /** Trimming twice is trimming once. */
  lemma {:induction false} TrimIdempotent(s: string)
    ensures Trim(Trim(s)) == Trim(s)
  {
    var r := Trim(s);
    assert [] + r + [] == r;
    TrimPadded([], r, []);
  }

  // ---------------------------------------------------------------------------
  // split

  /** Index of the first `c` in `s` at or after `from`. */
  function Find(s: string, c: char, from: nat): (r: Option<nat>)
    ensures r.Some? ==> from <= r.value < |s| && s[r.value] == c
    ensures r.Some? ==> forall i | from <= i < r.value :: s[i] != c
    ensures r.None? ==> forall i | from <= i < |s| :: s[i] != c
    decreases |s| - from
  {
    if from >= |s| then None
    else if s[from] == c then Some(from)
    else Find(s, c, from + 1)
  }

  /** `s.split(sep)` for a one-character separator: the pieces between separators, in order. */
  function Split(s: string, sep: char): (r: seq<string>)
    ensures |r| >= 1
    ensures forall i | 0 <= i < |r| :: sep !in r[i]
    decreases |s|
  {
    match Find(s, sep, 0)
    case None => [s]
    case Some(k) => [s[..k]] + Split(s[k + 1..], sep)
  }

  /** `pieces.join(sep)`. */
  function Join(pieces: seq<string>, sep: char): string
    requires |pieces| >= 1
    decreases |pieces|
  {
    if |pieces| == 1 then pieces[0] else pieces[0] + [sep] + Join(pieces[1..], sep)
  }

  /** Splitting and joining again gives back the text. */
  lemma {:induction false} SplitJoin(s: string, sep: char)
    ensures Join(Split(s, sep), sep) == s
    decreases |s|
  {
    match Find(s, sep, 0)
    case None =>
    case Some(k) =>
      var pieces := [s[..k]] + Split(s[k + 1..], sep);
      assert pieces[0] == s[..k] && pieces[1..] == Split(s[k + 1..], sep);
      assert Join(pieces, sep) == s[..k] + [sep] + Join(Split(s[k + 1..], sep), sep);
      SplitJoin(s[k + 1..], sep);
      assert s == s[..k] + [sep] + s[k + 1..];
  }

  /** Joining pieces free of the separator and splitting again gives back the pieces. */
  lemma {:induction false} JoinSplit(pieces: seq<string>, sep: char)
    requires |pieces| >= 1
    requires forall i | 0 <= i < |pieces| :: sep !in pieces[i]
    ensures Split(Join(pieces, sep), sep) == pieces
    decreases |pieces|
  {
    var p := pieces[0];
    if |pieces| == 1 {
      assert Find(p, sep, 0).None?;
    } else {
      var s := Join(pieces, sep);
      assert s == p + [sep] + Join(pieces[1..], sep);
      assert s[|p|] == sep;
      assert forall i | 0 <= i < |p| :: s[i] == p[i];
      assert Find(s, sep, 0) == Some(|p|);
      assert s[..|p|] == p;
      assert s[|p| + 1..] == Join(pieces[1..], sep);
      JoinSplit(pieces[1..], sep);
    }
  }

  /** A line without its trailing carriage return. */
  function DropReturn(line: string): (r: string)
    ensures '\r' !in line ==> r == line
  {
    if line != [] && line[|line| - 1] == '\r' then line[..|line| - 1] else line
  }

  /**
   * `split(/\r?\n/)`: the text is cut at every line feed, and a carriage
   * return right before a line feed goes with it; a carriage return at the
   * very end belongs to the last line.
   */
  function SplitLines(s: string): (r: seq<string>)
    ensures |r| == |Split(s, '\n')|
  {
    var pieces := Split(s, '\n');
    seq(|pieces|, i requires 0 <= i < |pieces| => if i < |pieces| - 1 then DropReturn(pieces[i]) else pieces[i])
  }

  /** Every piece of a split is made of characters of the text. */
  lemma {:induction false} SplitChars(s: string, sep: char)
    ensures forall i, j | 0 <= i < |Split(s, sep)| && 0 <= j < |Split(s, sep)[i]| :: Split(s, sep)[i][j] in s
    decreases |s|
  {
    match Find(s, sep, 0)
    case None =>
    case Some(k) =>
      SplitChars(s[k + 1..], sep);
      var r := Split(s, sep);
      assert r == [s[..k]] + Split(s[k + 1..], sep);
      forall i, j | 0 <= i < |r| && 0 <= j < |r[i]|
        ensures r[i][j] in s
      {
        if i == 0 {
          assert r[i][j] == s[j];
        } else {
          assert r[i] == Split(s[k + 1..], sep)[i - 1];
          assert r[i][j] in s[k + 1..];
        }
      }
  }

  /** Without carriage returns, the lines joined by line feeds are the text again. */
  lemma {:induction false} LinesJoin(s: string)
    requires '\r' !in s
    ensures Join(SplitLines(s), '\n') == s
  {
    var pieces := Split(s, '\n');
    SplitChars(s, '\n');
    forall i, j | 0 <= i < |pieces| && 0 <= j < |pieces[i]|
      ensures pieces[i][j] != '\r'
    {
      assert pieces[i][j] in s;
    }
    assert SplitLines(s) == pieces;
    SplitJoin(s, '\n');
  }

  /** Lines free of line feeds and carriage returns, joined by line feeds, split back into the same lines. */
  lemma {:induction false} JoinLinesSplit(lines: seq<string>)
    requires |lines| >= 1
    requires forall i | 0 <= i < |lines| :: '\n' !in lines[i] && '\r' !in lines[i]
    ensures SplitLines(Join(lines, '\n')) == lines
  {
    JoinSplit(lines, '\n');
  }

  /** `lines.join("\r\n")`. */
  function JoinCrlf(lines: seq<string>): string
    requires |lines| >= 1
    decreases |lines|
  {
    if |lines| == 1 then lines[0] else lines[0] + "\r\n" + JoinCrlf(lines[1..])
  }

  /** The pieces a `\n` split cuts `JoinCrlf(lines)` into: every line but the last keeps its `\r`. */
  function CrPieces(lines: seq<string>): (r: seq<string>)
    ensures |r| == |lines|
  {
    seq(|lines|, i requires 0 <= i < |lines| => if i < |lines| - 1 then lines[i] + "\r" else lines[i])
  }

  lemma {:induction false} JoinCrlfPieces(lines: seq<string>)
    requires |lines| >= 1
    ensures JoinCrlf(lines) == Join(CrPieces(lines), '\n')
    decreases |lines|
  {
    if |lines| > 1 {
      var p := CrPieces(lines);
      assert p[0] == lines[0] + "\r";
      assert p[1..] == CrPieces(lines[1..]);
      JoinCrlfPieces(lines[1..]);
    }
  }

  /** Lines free of line feeds and carriage returns, joined by `\r\n`, split back into the same lines. */
  lemma {:induction false} JoinCrlfSplit(lines: seq<string>)
    requires |lines| >= 1
    requires forall i | 0 <= i < |lines| :: '\n' !in lines[i] && '\r' !in lines[i]
    ensures SplitLines(JoinCrlf(lines)) == lines
  {
    var p := CrPieces(lines);
    forall i | 0 <= i < |p|
      ensures '\n' !in p[i]
    {
      if i < |p| - 1 {
        assert p[i] == lines[i] + "\r";
      }
    }
    JoinCrlfPieces(lines);
    JoinSplit(p, '\n');
    forall i | 0 <= i < |lines|
      ensures SplitLines(JoinCrlf(lines))[i] == lines[i]
    {
      if i < |lines| - 1 {
        assert p[i] == lines[i] + "\r";
        assert DropReturn(p[i]) == lines[i];
      }
    }
  }

  /** Text without a line terminator. */
  predicate SingleLine(s: string) {
    forall i | 0 <= i < |s| :: !IsLineTerminator(s[i])
  }

  // ---------------------------------------------------------------------------
  // Decimal numerals (`parseInt(d, 10)` on a run of digits).

  function DigitValue(c: char): nat
    requires IsDigit(c)
  {
    c as int - '0' as int
  }

  function DigitChar(d: nat): (c: char)
    requires d < 10
    ensures IsDigit(c) && DigitValue(c) == d
  {
    ('0' as int + d) as char
  }

  predicate AllDigits(s: string) {
    forall i | 0 <= i < |s| :: IsDigit(s[i])
  }

  /** The value of a decimal numeral; leading zeros are allowed. */
  function ParseNat(d: string): nat
    requires AllDigits(d)
    decreases |d|
  {
    if d == [] then 0 else 10 * ParseNat(d[..|d| - 1]) + DigitValue(d[|d| - 1])
  }

  /** The shortest decimal numeral of `n`. */
  function ShowNat(n: nat): (r: string)
    ensures r != [] && AllDigits(r)
  {
    if n < 10 then [DigitChar(n)] else ShowNat(n / 10) + [DigitChar(n % 10)]
  }

  /** Reading a shown number gives the number back. */
  lemma {:induction false} ParseShow(n: nat)
    ensures ParseNat(ShowNat(n)) == n
  {
    if n >= 10 {
      ParseShow(n / 10);
      var s := ShowNat(n);
      assert s[..|s| - 1] == ShowNat(n / 10);
    } else {
      assert ShowNat(n)[..0] == [];
    }
  }

  // ---------------------------------------------------------------------------
  // Comments.

  /** No `a` is immediately followed by `b` in `s`. */
  predicate NoPair(s: string, a: char, b: char) {
    forall i | 0 <= i < |s| - 1 :: !(s[i] == a && s[i + 1] == b)
  }

  /** Index of the first `a b` in `s` starting at or after `from`. */
  function FindPair(s: string, a: char, b: char, from: nat): (r: Option<nat>)
    ensures r.Some? ==> from <= r.value && r.value + 1 < |s| && s[r.value] == a && s[r.value + 1] == b
    ensures r.Some? ==> forall i | from <= i < r.value :: !(s[i] == a && s[i + 1] == b)
    ensures r.None? ==> forall i | from <= i < |s| - 1 :: !(s[i] == a && s[i + 1] == b)
    decreases |s| - from
  {
    if from + 1 >= |s| then None
    else if s[from] == a && s[from + 1] == b then Some(from)
    else FindPair(s, a, b, from + 1)
  }

  // The block-comment `replace` of `parseStep`, with the lazy pattern
  // slash-star, anything, star-slash: the leftmost opener and the first closer
  // after it go, with everything between; scanning resumes after the closer.
  // An opener with no closer after it stays, and so does everything after it.
  function StripBlockComments(s: string): (r: string)
    ensures |r| <= |s|
    decreases |s|
  {
    match FindPair(s, '/', '*', 0)
    case None => s
    case Some(p) =>
      match FindPair(s, '*', '/', p + 2)
      case None => s
      case Some(q) => s[..p] + StripBlockComments(s[q + 2..])
  }

  /** A closed block comment is removed, and what precedes it is kept as it was. */
  lemma {:induction false} BlockCommentRemoved(before: string, body: string, after: string)
    requires NoPair(before, '/', '*')
    requires NoPair(body, '*', '/')
    ensures StripBlockComments(before + "/*" + body + "*/" + after) == before + StripBlockComments(after)
  {
    var s := before + "/*" + body + "*/" + after;
    var p := |before|;
    var q := p + 2 + |body|;
    assert s[p] == '/' && s[p + 1] == '*';
    assert forall i | 0 <= i < p :: s[i] == before[i];
    assert FindPair(s, '/', '*', 0) == Some(p);
    assert s[q] == '*' && s[q + 1] == '/';
    assert forall i | p + 2 <= i < q :: s[i] == body[i - p - 2];
    assert FindPair(s, '*', '/', p + 2) == Some(q);
    assert s[..p] == before;
    assert s[q + 2..] == after;
  }

  /** Text without a block-comment opener is left alone. */
  lemma {:induction false} NoBlockCommentUnchanged(s: string)
    requires NoPair(s, '/', '*')
    ensures StripBlockComments(s) == s
  {
  }

  /** Index of the first line terminator at or after `from`, or |s|: where `$` matches in multiline mode. */
  function LineEnd(s: string, from: nat): (r: nat)
    requires from <= |s|
    ensures from <= r <= |s|
    ensures r < |s| ==> IsLineTerminator(s[r])
    ensures forall i | from <= i < r :: !IsLineTerminator(s[i])
    decreases |s| - from
  {
    if from == |s| || IsLineTerminator(s[from]) then from else LineEnd(s, from + 1)
  }

  /**
   * `replace(/--.*$/gm, "")`: from the leftmost `--` to the end of its line
   * goes, the line terminator itself stays; scanning resumes at the terminator.
   */
  function StripLineComments(s: string): (r: string)
    ensures NoPair(r, '-', '-')
    ensures s != [] && IsLineTerminator(s[0]) ==> r != [] && r[0] == s[0]
    decreases |s|
  {
    match FindPair(s, '-', '-', 0)
    case None => s
    case Some(p) =>
      var e := LineEnd(s, p);
      var rest := StripLineComments(s[e..]);
      assert forall i | 0 <= i < p :: s[..p][i] == s[i];
      assert p > 0 && rest != [] ==> s[e] != '-' && rest[0] == s[e];
      s[..p] + rest
  }

  /** A pair found at `p` with none before it is the first one. */
  lemma {:induction false} FirstPair(s: string, a: char, b: char, p: nat)
    requires p + 1 < |s| && s[p] == a && s[p + 1] == b
    requires forall i | 0 <= i < p :: !(s[i] == a && s[i + 1] == b)
    ensures FindPair(s, a, b, 0) == Some(p)
  {
  }

  /** A line comment is removed up to its line's end, and what precedes it is kept. */
  lemma {:induction false} LineCommentRemoved(before: string, comment: string, after: string)
    requires NoPair(before, '-', '-') && (before == [] || before[|before| - 1] != '-')
    requires forall i | 0 <= i < |comment| :: !IsLineTerminator(comment[i])
    requires after == [] || IsLineTerminator(after[0])
    ensures StripLineComments(before + "--" + comment + after) == before + StripLineComments(after)
  {
    var s := before + "--" + comment + after;
    var p := |before|;
    var e := p + 2 + |comment|;
    assert s[..p] == before;
    assert s[p..e] == "--" + comment;
    assert s[e..] == after;
    forall i | 0 <= i < p
      ensures !(s[i] == '-' && s[i + 1] == '-')
    {
      assert s[i] == before[i];
      if i + 1 < p {
        assert s[i + 1] == before[i + 1];
      }
    }
    FirstPair(s, '-', '-', p);
    forall i | p <= i < e
      ensures !IsLineTerminator(s[i])
    {
      if i >= p + 2 {
        assert s[i] == comment[i - p - 2];
      }
    }
    assert e < |s| ==> s[e] == after[0];
    assert LineEnd(s, p) == e;
  }

  /** Text without a `--` is left alone. */
  lemma {:induction false} NoLineCommentUnchanged(s: string)
    requires NoPair(s, '-', '-')
    ensures StripLineComments(s) == s
  {
  }

  /** The line terminators of `s`, in order. */
  function Terminators(s: string): string
    decreases |s|
  {
    if s == [] then [] else (if IsLineTerminator(s[0]) then [s[0]] else []) + Terminators(s[1..])
  }

  lemma {:induction false} TerminatorsAppend(a: string, b: string)
    ensures Terminators(a + b) == Terminators(a) + Terminators(b)
    decreases |a|
  {
    if a != [] {
      assert (a + b)[1..] == a[1..] + b;
      TerminatorsAppend(a[1..], b);
    } else {
      assert a + b == b;
    }
  }

  lemma {:induction false} NoTerminators(s: string)
    requires forall i | 0 <= i < |s| :: !IsLineTerminator(s[i])
    ensures Terminators(s) == []
    decreases |s|
  {
    if s != [] {
      NoTerminators(s[1..]);
    }
  }

  /** Removing line comments keeps every line terminator, so no line is merged or lost. */
  lemma {:induction false} LineCommentsKeepLines(s: string)
    ensures Terminators(StripLineComments(s)) == Terminators(s)
    decreases |s|
  {
    match FindPair(s, '-', '-', 0)
    case None =>
    case Some(p) =>
      var e := LineEnd(s, p);
      LineCommentsKeepLines(s[e..]);
      KeepLinesStep(s, p, e, StripLineComments(s[e..]));
  }

  lemma {:induction false} KeepLinesStep(s: string, p: nat, e: nat, r: string)
    requires p <= e <= |s|
    requires forall i | p <= i < e :: !IsLineTerminator(s[i])
    requires Terminators(r) == Terminators(s[e..])
    ensures Terminators(s[..p] + r) == Terminators(s)
  {
    var head, comment, tail := s[..p], s[p..e], s[e..];
    TerminatorsAppend(head, r);
    assert s == head + (comment + tail);
    TerminatorsAppend(head, comment + tail);
    TerminatorsAppend(comment, tail);
    assert forall i | 0 <= i < |comment| :: comment[i] == s[p + i];
    NoTerminators(comment);
  }
}
