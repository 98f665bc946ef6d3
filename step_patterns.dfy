/**
 * The regular expressions of `parseStep` and its entity parsers
 * (src/step-parser.ts), written as sequences of pattern elements and matched
 * the way ECMAScript matches them.
 *
 * Every quantified element here is followed, in every pattern the parser
 * uses, by an element that cannot start with a character the quantifier
 * accepts, so the greedy quantifier never needs to give characters back and
 * matching an element is a function of the text. The one exception, the
 * greedy `'.*'` that opens most argument patterns, is searched for
 * explicitly by `SearchQuoted`.
 */
module StepPatterns {
  import opened Wrappers
  import opened StepText

  /** A character of `[-0-9.Ee+]`. */
  predicate IsNumeralChar(c: char) {
    c == '-' || IsDigit(c) || c == '.' || c == 'E' || c == 'e' || c == '+'
  }

  /** A character of `[A-Z0-9_]`. */
  predicate IsKeywordChar(c: char) {
    ('A' <= c <= 'Z') || IsDigit(c) || c == '_'
  }

  /** The elements the patterns are built from. */
  datatype Elem =
    | Space        // \s*
    | Char(c: char) // one literal character
    | Id           // (\d+), captured and read with parseInt(_, 10)
    | Flag         // (\.[TF]\.), captured and compared with ".T."
    | Group        // ([^)]*)\) : the text up to the next `)`, captured; the `)` is consumed
    | Numeral      // ([-0-9.Ee+]+), captured as text
    | Keyword      // ([A-Z0-9_]+), captured as text
    | End          // $ without the multiline flag

  /** What a capturing element yields. */
  datatype Capture = Number(n: nat) | Truth(b: bool) | Text(t: string)

  /** The captures of a successful match and the text after it. */
  datatype Matched = Matched(captures: seq<Capture>, rest: string)

  predicate Captures(e: Elem) {
    e.Id? || e.Flag? || e.Group? || e.Numeral? || e.Keyword?
  }

  function Prepend(c: Capture, r: Option<Matched>): Option<Matched> {
    if r.None? then None else Some(Matched([c] + r.value.captures, r.value.rest))
  }

  /** Matches `pat` at the start of `s`; the rest of `s` is what follows the match. */
  function Match(s: string, pat: seq<Elem>): Option<Matched>
    decreases |pat|
  {
    if pat == [] then Some(Matched([], s))
    else
      match pat[0]
      case Space => Match(SkipSpace(s), pat[1..])
      case Char(c) => if s != [] && s[0] == c then Match(s[1..], pat[1..]) else None
      case Id =>
        var k := Run(s, IsDigit);
        if k == 0 then None else Prepend(Number(ParseNat(s[..k])), Match(s[k..], pat[1..]))
      case Flag =>
        if |s| >= 3 && s[0] == '.' && (s[1] == 'T' || s[1] == 'F') && s[2] == '.'
        then Prepend(Truth(s[1] == 'T'), Match(s[3..], pat[1..]))
        else None
      case Group =>
        (match Find(s, ')', 0)
         case None => None
         case Some(k) => Prepend(Text(s[..k]), Match(s[k + 1..], pat[1..])))
      case Numeral =>
        var k := Run(s, IsNumeralChar);
        if k == 0 then None else Prepend(Text(s[..k]), Match(s[k..], pat[1..]))
      case Keyword =>
        var k := Run(s, IsKeywordChar);
        if k == 0 then None else Prepend(Text(s[..k]), Match(s[k..], pat[1..]))
      case End => if s == [] then Match(s, pat[1..]) else None
  }

  /**
   * `'.*'` followed by `tail`, searched for anywhere in `s`: the match starts
   * at the leftmost quote from which one exists, and the greedy `.*` makes it
   * close at the last quote of that line that lets `tail` match.
   */
  function SearchQuoted(s: string, tail: seq<Elem>): Option<seq<Capture>> {
    QuotedFrom(s, 0, tail)
  }

  function QuotedFrom(s: string, p: nat, tail: seq<Elem>): Option<seq<Capture>>
    decreases |s| - p
  {
    if p >= |s| then None
    else if s[p] == '\'' then
      match CloseFrom(s, p, LineEnd(s, p + 1), tail)
      case Some(c) => Some(c)
      case None => QuotedFrom(s, p + 1, tail)
    else QuotedFrom(s, p + 1, tail)
  }

  /** Closing quotes at q - 1, q - 2, ..., p + 1 in turn: `.*` giving back one character at a time. */
  function CloseFrom(s: string, p: nat, q: nat, tail: seq<Elem>): Option<seq<Capture>>
    requires p < q <= |s|
    decreases q
  {
    if q == p + 1 then None
    else if s[q - 1] == '\'' && Match(s[q..], tail).Some? then Some(Match(s[q..], tail).value.captures)
    else CloseFrom(s, p, q - 1, tail)
  }

  /** The character `c` followed by `tail`, searched for from `from` on: the leftmost `c` where `tail` matches. */
  function SearchAfter(s: string, c: char, tail: seq<Elem>, from: nat): Option<seq<Capture>>
    decreases |s| - from
  {
    if from >= |s| then None
    else if s[from] == c && Match(s[from + 1..], tail).Some? then Some(Match(s[from + 1..], tail).value.captures)
    else SearchAfter(s, c, tail, from + 1)
  }

  /** The number captured at position `i`, or 0. */
  function NumberAt(caps: seq<Capture>, i: nat): nat {
    if i < |caps| && caps[i].Number? then caps[i].n else 0
  }

  /** The flag captured at position `i`, or false. */
  function TruthAt(caps: seq<Capture>, i: nat): bool {
    i < |caps| && caps[i].Truth? && caps[i].b
  }

  /** The text captured at position `i`, or the empty text. */
  function TextAt(caps: seq<Capture>, i: nat): string {
    if i < |caps| && caps[i].Text? then caps[i].t else []
  }

  // ---------------------------------------------------------------------------
  // Rendering: the canonical text a pattern matches with given captures.

  /** Whether element `e` can capture `c`, and render it back. */
  predicate Valid(e: Elem, c: Capture) {
    match e
    case Id => c.Number?
    case Flag => c.Truth?
    case Group => c.Text? && forall i | 0 <= i < |c.t| :: c.t[i] != ')'
    case Numeral => c.Text? && c.t != [] && forall i | 0 <= i < |c.t| :: IsNumeralChar(c.t[i])
    case Keyword => c.Text? && c.t != [] && forall i | 0 <= i < |c.t| :: IsKeywordChar(c.t[i])
    case _ => false
  }

  /** The text of one element: captures as captured, `\s*` and `$` as nothing. */
  function Show(e: Elem, c: Capture): string {
    match e
    case Space => []
    case Char(ch) => [ch]
    case Id => if c.Number? then ShowNat(c.n) else []
    case Flag => if c.Truth? && c.b then ".T." else ".F."
    case Group => (if c.Text? then c.t else []) + ")"
    case Numeral => if c.Text? then c.t else []
    case Keyword => if c.Text? then c.t else []
    case End => []
  }

  /** The canonical text `pat` matches with captures `caps`. */
  function Render(pat: seq<Elem>, caps: seq<Capture>): string
    decreases |pat|
  {
    if pat == [] then []
    else if Captures(pat[0]) && caps != [] then Show(pat[0], caps[0]) + Render(pat[1..], caps[1..])
    else Show(pat[0], Text([])) + Render(pat[1..], caps)
  }

  /** The first character of `t` followed by something whose first character is `follow`. */
  function LeadOf(t: string, follow: Option<char>): Option<char> {
    if t == [] then follow else Some(t[0])
  }

  /** The first character of `t`, if any. */
  function First(t: string): Option<char> {
    LeadOf(t, None)
  }

  /** The first character of the rendering of `pat`, followed by text starting with `follow`. */
  function Lead(pat: seq<Elem>, caps: seq<Capture>, follow: Option<char>): Option<char>
    decreases |pat|
  {
    if pat == [] then follow
    else if Captures(pat[0]) && caps != [] then LeadOf(Show(pat[0], caps[0]), Lead(pat[1..], caps[1..], follow))
    else LeadOf(Show(pat[0], Text([])), Lead(pat[1..], caps, follow))
  }

  /** What may come next after element `e` (its first character, or nothing) so that `e` stops where its text stops. */
  predicate Boundary(e: Elem, next: Option<char>) {
    match e
    case Space => next.None? || !IsSpace(next.value)
    case Id => next.None? || !IsDigit(next.value)
    case Numeral => next.None? || !IsNumeralChar(next.value)
    case Keyword => next.None? || !IsKeywordChar(next.value)
    case End => next.None?
    case _ => true
  }

  /**
   * `caps` fit `pat`, and every element of the rendering stops where it should
   * when the text after the rendering starts with `follow`.
   */
  predicate Fits(pat: seq<Elem>, caps: seq<Capture>, follow: Option<char>)
    decreases |pat|
  {
    if pat == [] then caps == []
    else if Captures(pat[0]) then
      caps != [] && Valid(pat[0], caps[0])
      && Boundary(pat[0], Lead(pat[1..], caps[1..], follow)) && Fits(pat[1..], caps[1..], follow)
    else Boundary(pat[0], Lead(pat[1..], caps, follow)) && Fits(pat[1..], caps, follow)
  }

  /** The first character of a joined text. */
  /** An element that captures nothing, put in front of a fitting pattern. */
  lemma {:induction false} FitsCons(e: Elem, pat: seq<Elem>, caps: seq<Capture>, follow: Option<char>)
    requires !Captures(e) && Boundary(e, Lead(pat, caps, follow)) && Fits(pat, caps, follow)
    ensures Fits([e] + pat, caps, follow)
    ensures Lead([e] + pat, caps, follow) == LeadOf(Show(e, Text([])), Lead(pat, caps, follow))
    ensures Render([e] + pat, caps) == Show(e, Text([])) + Render(pat, caps)
  {
    assert ([e] + pat)[0] == e && ([e] + pat)[1..] == pat;
  }

  lemma {:induction false} LeadOfAppend(a: string, b: string, follow: Option<char>)
    ensures LeadOf(a + b, follow) == LeadOf(a, LeadOf(b, follow))
  {
    if a != [] {
      assert (a + b)[0] == a[0];
    }
  }

  /** `Lead` is the first character of the rendering followed by the rest. */
  lemma {:induction false} LeadFirst(pat: seq<Elem>, caps: seq<Capture>, rest: string)
    ensures Lead(pat, caps, First(rest)) == First(Render(pat, caps) + rest)
    decreases |pat|
  {
    if pat == [] {
      assert Render(pat, caps) + rest == rest;
    } else {
      var capsTail := if Captures(pat[0]) && caps != [] then caps[1..] else caps;
      var head := if Captures(pat[0]) && caps != [] then Show(pat[0], caps[0]) else Show(pat[0], Text([]));
      var t := Render(pat[1..], capsTail) + rest;
      assert Lead(pat, caps, First(rest)) == LeadOf(head, Lead(pat[1..], capsTail, First(rest)));
      assert Render(pat, caps) + rest == head + t;
      LeadFirst(pat[1..], capsTail, rest);
      LeadOfAppend(head, t, None);
    }
  }

  /** A capturing element reads back its own text when what follows respects its boundary. */
  lemma {:induction false} MatchCapturing(pat: seq<Elem>, c: Capture, t: string)
    requires pat != [] && Captures(pat[0]) && Valid(pat[0], c) && Boundary(pat[0], First(t))
    ensures Match(Show(pat[0], c) + t, pat) == Prepend(c, Match(t, pat[1..]))
  {
    var shown := Show(pat[0], c);
    var s := shown + t;
    match pat[0]
    case Id =>
      RunConcat(shown, t, IsDigit);
      assert s[..|shown|] == shown && s[|shown|..] == t;
      ParseShow(c.n);
    case Flag =>
      assert s[3..] == t;
    case Group =>
      assert s[|c.t|] == ')';
      assert forall i | 0 <= i < |c.t| :: s[i] == c.t[i];
      assert Find(s, ')', 0) == Some(|c.t|);
      assert s[..|c.t|] == c.t && s[|c.t| + 1..] == t;
    case Numeral =>
      RunConcat(shown, t, IsNumeralChar);
      assert s[..|shown|] == shown && s[|shown|..] == t;
    case Keyword =>
      RunConcat(shown, t, IsKeywordChar);
      assert s[..|shown|] == shown && s[|shown|..] == t;
  }

  /** A non-capturing element reads back its own text when what follows respects its boundary. */
  lemma {:induction false} MatchPlain(pat: seq<Elem>, t: string)
    requires pat != [] && !Captures(pat[0]) && Boundary(pat[0], First(t))
    ensures Match(Show(pat[0], Text([])) + t, pat) == Match(t, pat[1..])
  {
    var s := Show(pat[0], Text([])) + t;
    match pat[0]
    case Space =>
      assert s == t;
      RunConcat([], t, IsSpace);
    case Char(ch) =>
      assert s[1..] == t;
    case End =>
      assert s == t;
  }

  /** Matching the rendering of fitting captures gives the captures back, and the rest untouched. */
  lemma {:induction false} MatchRender(pat: seq<Elem>, caps: seq<Capture>, rest: string)
    requires Fits(pat, caps, First(rest))
    ensures Match(Render(pat, caps) + rest, pat) == Some(Matched(caps, rest))
    decreases |pat|, 1
  {
    if pat == [] {
      assert Render(pat, caps) + rest == rest;
    } else if Captures(pat[0]) {
      MatchRenderCapturing(pat, caps, rest);
    } else {
      MatchRenderPlain(pat, caps, rest);
    }
  }

  /** `MatchRender` for a pattern that starts with a capturing element. */
  lemma {:induction false} MatchRenderCapturing(pat: seq<Elem>, caps: seq<Capture>, rest: string)
    requires pat != [] && Captures(pat[0]) && Fits(pat, caps, First(rest))
    ensures Match(Render(pat, caps) + rest, pat) == Some(Matched(caps, rest))
    decreases |pat|, 0
  {
    var t := Render(pat[1..], caps[1..]) + rest;
    assert Render(pat, caps) + rest == Show(pat[0], caps[0]) + t;
    LeadFirst(pat[1..], caps[1..], rest);
    MatchCapturing(pat, caps[0], t);
    MatchRender(pat[1..], caps[1..], rest);
    assert [caps[0]] + caps[1..] == caps;
  }

  /** `MatchRender` for a pattern that starts with an element that captures nothing. */
  lemma {:induction false} MatchRenderPlain(pat: seq<Elem>, caps: seq<Capture>, rest: string)
    requires pat != [] && !Captures(pat[0]) && Fits(pat, caps, First(rest))
    ensures Match(Render(pat, caps) + rest, pat) == Some(Matched(caps, rest))
    decreases |pat|, 0
  {
    var t := Render(pat[1..], caps) + rest;
    assert Render(pat, caps) + rest == Show(pat[0], Text([])) + t;
    LeadFirst(pat[1..], caps, rest);
    MatchPlain(pat, t);
    MatchRender(pat[1..], caps, rest);
  }

  /** Number of capturing elements in `pat`. */
  function Arity(pat: seq<Elem>): nat
    decreases |pat|
  {
    if pat == [] then 0 else (if Captures(pat[0]) then 1 else 0) + Arity(pat[1..])
  }

  /** Fitting captures are one per capturing element. */
  lemma {:induction false} FitsArity(pat: seq<Elem>, caps: seq<Capture>, follow: Option<char>)
    requires Fits(pat, caps, follow)
    ensures |caps| == Arity(pat)
    decreases |pat|
  {
    if pat != [] {
      if Captures(pat[0]) {
        FitsArity(pat[1..], caps[1..], follow);
      } else {
        FitsArity(pat[1..], caps, follow);
      }
    }
  }

  /** Rendering distributes over joined patterns. */
  lemma {:induction false} RenderAppend(p1: seq<Elem>, c1: seq<Capture>, p2: seq<Elem>, c2: seq<Capture>)
    requires |c1| == Arity(p1)
    ensures Render(p1 + p2, c1 + c2) == Render(p1, c1) + Render(p2, c2)
    decreases |p1|
  {
    if p1 == [] {
      assert p1 + p2 == p2 && c1 + c2 == c2;
    } else {
      assert (p1 + p2)[0] == p1[0] && (p1 + p2)[1..] == p1[1..] + p2;
      if Captures(p1[0]) {
        assert (c1 + c2)[0] == c1[0] && (c1 + c2)[1..] == c1[1..] + c2;
        RenderAppend(p1[1..], c1[1..], p2, c2);
      } else {
        RenderAppend(p1[1..], c1, p2, c2);
      }
    }
  }

  /** The lead of a joined pattern is the lead of the first part, followed by the lead of the second. */
  lemma {:induction false} LeadAppend(p1: seq<Elem>, c1: seq<Capture>, p2: seq<Elem>, c2: seq<Capture>, follow: Option<char>)
    requires |c1| == Arity(p1)
    ensures Lead(p1 + p2, c1 + c2, follow) == Lead(p1, c1, Lead(p2, c2, follow))
    decreases |p1|
  {
    if p1 == [] {
      assert p1 + p2 == p2 && c1 + c2 == c2;
    } else {
      assert (p1 + p2)[0] == p1[0] && (p1 + p2)[1..] == p1[1..] + p2;
      if Captures(p1[0]) {
        assert (c1 + c2)[0] == c1[0] && (c1 + c2)[1..] == c1[1..] + c2;
        LeadAppend(p1[1..], c1[1..], p2, c2, follow);
      } else {
        LeadAppend(p1[1..], c1, p2, c2, follow);
      }
    }
  }

  /** A joined pattern fits when its first part fits before the lead of the second. */
  lemma {:induction false} FitsAppend(p1: seq<Elem>, c1: seq<Capture>, p2: seq<Elem>, c2: seq<Capture>, follow: Option<char>)
    requires Fits(p1, c1, Lead(p2, c2, follow)) && Fits(p2, c2, follow)
    ensures Fits(p1 + p2, c1 + c2, follow)
    decreases |p1|
  {
    if p1 == [] {
      assert p1 + p2 == p2 && c1 + c2 == c2;
    } else {
      assert (p1 + p2)[0] == p1[0] && (p1 + p2)[1..] == p1[1..] + p2;
      if Captures(p1[0]) {
        assert (c1 + c2)[0] == c1[0] && (c1 + c2)[1..] == c1[1..] + c2;
        FitsAppend(p1[1..], c1[1..], p2, c2, follow);
        FitsArity(p1[1..], c1[1..], Lead(p2, c2, follow));
        LeadAppend(p1[1..], c1[1..], p2, c2, follow);
      } else {
        FitsAppend(p1[1..], c1, p2, c2, follow);
        FitsArity(p1[1..], c1, Lead(p2, c2, follow));
        LeadAppend(p1[1..], c1, p2, c2, follow);
      }
    }
  }

  /** Joining two fitting patterns: the join fits, leads with the first part, and renders as the two renderings joined. */
  lemma {:induction false} Concat(p1: seq<Elem>, c1: seq<Capture>, p2: seq<Elem>, c2: seq<Capture>, follow: Option<char>)
    requires Fits(p1, c1, Lead(p2, c2, follow)) && Fits(p2, c2, follow)
    ensures Fits(p1 + p2, c1 + c2, follow)
    ensures Lead(p1 + p2, c1 + c2, follow) == Lead(p1, c1, Lead(p2, c2, follow))
    ensures Render(p1 + p2, c1 + c2) == Render(p1, c1) + Render(p2, c2)
    ensures PlainText(Render(p1, c1)) && PlainText(Render(p2, c2)) ==> PlainText(Render(p1 + p2, c1 + c2))
  {
    if PlainText(Render(p1, c1)) && PlainText(Render(p2, c2)) {
      FitsArity(p1, c1, Lead(p2, c2, follow));
      RenderAppend(p1, c1, p2, c2);
      PlainAppend(Render(p1, c1), Render(p2, c2));
    }
    FitsAppend(p1, c1, p2, c2, follow);
    FitsArity(p1, c1, Lead(p2, c2, follow));
    LeadAppend(p1, c1, p2, c2, follow);
    RenderAppend(p1, c1, p2, c2);
  }

  /** A character that neither closes a quote nor ends a line. */
  predicate Plain(c: char) {
    c != '\'' && !IsLineTerminator(c)
  }

  /** Text made of plain characters only. */
  predicate PlainText(t: string) {
    forall i | 0 <= i < |t| :: Plain(t[i])
  }

  lemma {:induction false} PlainAppend(a: string, b: string)
    requires PlainText(a) && PlainText(b)
    ensures PlainText(a + b)
  {
    assert forall i | 0 <= i < |a| :: (a + b)[i] == a[i];
    assert forall i | |a| <= i < |a + b| :: (a + b)[i] == b[i - |a|];
  }

  /** The closing quote search skips every position whose character is not a quote. */
  lemma {:induction false} CloseFromSkips(s: string, p: nat, q: nat, q0: nat, tail: seq<Elem>)
    requires p < q0 <= q <= |s|
    requires forall i | q0 <= i < q :: s[i] != '\''
    ensures CloseFrom(s, p, q, tail) == CloseFrom(s, p, q0, tail)
    decreases q
  {
    if q > q0 {
      CloseFromSkips(s, p, q - 1, q0, tail);
    }
  }

  /** An empty quoted name followed by the rendering of `tail` is matched by the search, with its captures. */
  lemma {:induction false} SearchQuotedRender(tail: seq<Elem>, caps: seq<Capture>)
    requires Fits(tail, caps, None)
    requires PlainText(Render(tail, caps))
    ensures SearchQuoted("''" + Render(tail, caps), tail) == Some(caps)
  {
    var r := Render(tail, caps);
    var s := "''" + r;
    assert s[2..] == r;
    forall i | 2 <= i < |s|
      ensures Plain(s[i])
    {
      assert s[i] == r[i - 2];
    }
    assert LineEnd(s, 1) == |s|;
    CloseFromSkips(s, 0, |s|, 2, tail);
    MatchRender(tail, caps, []);
    assert r + [] == r;
    assert CloseFrom(s, 0, 2, tail) == Some(caps);
  }

  /** The leftmost-`c` search skips every position that does not hold `c`. */
  lemma {:induction false} SearchAfterSkips(s: string, c: char, tail: seq<Elem>, from: nat, to: nat)
    requires from <= to <= |s|
    requires forall i | from <= i < to :: s[i] != c
    ensures SearchAfter(s, c, tail, from) == SearchAfter(s, c, tail, to)
    decreases |s| - from
  {
    if from < to {
      SearchAfterSkips(s, c, tail, from + 1, to);
    }
  }

  /** The first `c` followed by the rendering of `tail` is found by the search, with its captures. */
  lemma {:induction false} SearchAfterRender(prefix: string, c: char, tail: seq<Elem>, caps: seq<Capture>)
    requires c !in prefix && Fits(tail, caps, None)
    ensures SearchAfter(prefix + [c] + Render(tail, caps), c, tail, 0) == Some(caps)
  {
    var r := Render(tail, caps);
    var s := prefix + [c] + r;
    assert forall i | 0 <= i < |prefix| :: s[i] == prefix[i];
    SearchAfterSkips(s, c, tail, 0, |prefix|);
    assert s[|prefix|] == c;
    assert s[|prefix| + 1..] == r + [];
    MatchRender(tail, caps, []);
  }
}
