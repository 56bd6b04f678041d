/**
  The regular expressions of the OCR parser, each modelled by hand as a
  matcher that says whether, and where to, the expression matches when the
  engine starts at a given position. Alternatives are tried in the order a
  backtracking JavaScript engine tries them (greedy counts first), so the
  match found at a position is the one JavaScript reports. On top of the
  matchers sit the three ways the parser uses them: the leftmost match
  (`match`/`test` without the `g` flag), all matches (`match` with `g`) and
  global replacement (`replace` with `g`).
 */
module Regex {
  import opened Wrappers
  import opened Text

  /** The expressions of the parser, with their JavaScript source. */
  datatype Pattern =
    | DatePat      // /(\d{1,2})[-/](\d{1,2})[-/](\d{4})/
    | DateLinePat  // /\d{1,2}\s*[-\/]\s*\d{1,2}\s*[-\/]\s*\d{2,4}/
    | PhonePat     // /\d{4}\s*[-\s]\s*\d{4}/
    | TwoDigitPat  // /\b\d{2}\b/
    | PrizePat     // /\b\d{2,3}\b/
    | TimePat      // /(\d{1,2}(:\d{2})?)\s*(AM|PM)?/i

  /** The positions `[start, end)` one match covers. */
  datatype Span = Span(start: nat, end: nat)

  /** The three capture groups of the date expression. */
  datatype DateParts = DateParts(day: string, month: string, year: string)

  // ---------------------------------------------------------------------
  // Building blocks
  // ---------------------------------------------------------------------

  /** `\d{n}` matches at `i`. */
  predicate DigitsAt(s: string, i: nat, n: nat) {
    i + n <= |s| && forall k :: i <= k < i + n ==> IsDigit(s[k])
  }

  /**
    Greedy `\s*` from `i`. Everywhere the parser uses `\s*`, what follows it
    can never match white space, so only the longest run leads to a match
    and the shorter runs the engine backtracks into fail.
   */
  function SkipSpaces(s: string, i: nat): (j: nat)
    requires i <= |s|
    ensures i <= j <= |s|
    ensures forall k :: i <= k < j ==> IsSpace(s[k])
    ensures j == |s| || !IsSpace(s[j])
    decreases |s| - i
  {
    if i < |s| && IsSpace(s[i]) then SkipSpaces(s, i + 1) else i
  }

  predicate IsDateSep(c: char) { c == '-' || c == '/' }

  /** `\b` at position `i`: a word character on exactly one side. */
  predicate Boundary(s: string, i: nat)
    requires i <= |s|
  {
    (i > 0 && IsWordChar(s[i - 1])) != (i < |s| && IsWordChar(s[i]))
  }

  // ---------------------------------------------------------------------
  // The matchers
  // ---------------------------------------------------------------------

  /** The date expression with `dl` day digits and `ml` month digits. */
  function TryDate(s: string, i: nat, dl: nat, ml: nat): (r: Option<DateParts>)
    ensures r.Some? ==> i + dl + ml + 6 <= |s|
    ensures r.Some? ==> r.value == DateParts(s[i..i + dl], s[i + dl + 1..i + dl + 1 + ml], s[i + dl + ml + 2..i + dl + ml + 6])
  {
    var j := i + dl;       // first separator
    var k := j + 1 + ml;   // second separator
    if DigitsAt(s, i, dl) && j < |s| && IsDateSep(s[j]) && DigitsAt(s, j + 1, ml)
       && k < |s| && IsDateSep(s[k]) && DigitsAt(s, k + 1, 4)
    then Some(DateParts(s[i..j], s[j + 1..k], s[k + 1..k + 5]))
    else None
  }

  /** `(\d{1,2})[-/](\d{1,2})[-/](\d{4})` at `i`, with its capture groups. */
  function DateAt(s: string, i: nat): (r: Option<DateParts>)
    ensures r.Some? ==> 1 <= |r.value.day| <= 2 && 1 <= |r.value.month| <= 2 && |r.value.year| == 4
    ensures r.Some? ==> i + |r.value.day| + |r.value.month| + |r.value.year| + 2 <= |s|
  {
    var a := TryDate(s, i, 2, 2);
    if a.Some? then a else
    var b := TryDate(s, i, 2, 1);
    if b.Some? then b else
    var c := TryDate(s, i, 1, 2);
    if c.Some? then c else
    TryDate(s, i, 1, 1)
  }

  /** The greedy `\d{2,4}` that ends the date-line expression. */
  function YearDigits(s: string, e: nat): (r: Option<nat>)
    ensures r.Some? ==> e + 2 <= r.value <= |s|
  {
    if DigitsAt(s, e, 4) then Some(e + 4)
    else if DigitsAt(s, e, 3) then Some(e + 3)
    else if DigitsAt(s, e, 2) then Some(e + 2)
    else None
  }

  /** The date-line expression with `dl` and `ml` digits in its first two numbers. */
  function TryDateLine(s: string, i: nat, dl: nat, ml: nat): (r: Option<nat>)
    requires i <= |s|
    ensures r.Some? ==> i < r.value <= |s|
  {
    if !DigitsAt(s, i, dl) then None else
    var a := SkipSpaces(s, i + dl);
    if a == |s| || !IsDateSep(s[a]) then None else
    var b := SkipSpaces(s, a + 1);
    if !DigitsAt(s, b, ml) then None else
    var c := SkipSpaces(s, b + ml);
    if c == |s| || !IsDateSep(s[c]) then None else
    YearDigits(s, SkipSpaces(s, c + 1))
  }

  /** `\d{1,2}\s*[-\/]\s*\d{1,2}\s*[-\/]\s*\d{2,4}` at `i`: where the match ends. */
  function DateLineAt(s: string, i: nat): (r: Option<nat>)
    requires i <= |s|
    ensures r.Some? ==> i < r.value <= |s|
  {
    var a := TryDateLine(s, i, 2, 2);
    if a.Some? then a else
    var b := TryDateLine(s, i, 2, 1);
    if b.Some? then b else
    var c := TryDateLine(s, i, 1, 2);
    if c.Some? then c else
    TryDateLine(s, i, 1, 1)
  }

  /**
    `\d{4}\s*[-\s]\s*\d{4}` at `i`. Between the two digit groups the
    expression accepts exactly a non-empty run of white space holding at
    most one hyphen: a hyphen is taken by `[-\s]` after the greedy `\s*`;
    with no hyphen, the engine backs `\s*` off by one character so that
    `[-\s]` takes a space. The second group must start where that run ends.
   */
  function PhoneAt(s: string, i: nat): (r: Option<nat>)
    requires i <= |s|
    ensures r.Some? ==> i < r.value <= |s|
  {
    if !DigitsAt(s, i, 4) then None else
    var a := SkipSpaces(s, i + 4);
    if a < |s| && s[a] == '-' then
      var b := SkipSpaces(s, a + 1);
      if DigitsAt(s, b, 4) then Some(b + 4) else None
    else if a > i + 4 && DigitsAt(s, a, 4) then Some(a + 4)
    else None
  }

  /** `\b\d{2}\b` at `i`. */
  function TwoDigitAt(s: string, i: nat): (r: Option<nat>)
    requires i <= |s|
    ensures r.Some? ==> r.value == i + 2 <= |s|
  {
    if Boundary(s, i) && DigitsAt(s, i, 2) && Boundary(s, i + 2) then Some(i + 2) else None
  }

  /** `\b\d{2,3}\b` at `i`, trying three digits before two. */
  function PrizeAt(s: string, i: nat): (r: Option<nat>)
    requires i <= |s|
    ensures r.Some? ==> i + 2 <= r.value <= i + 3 && r.value <= |s|
  {
    if Boundary(s, i) && DigitsAt(s, i, 3) && Boundary(s, i + 3) then Some(i + 3)
    else if Boundary(s, i) && DigitsAt(s, i, 2) && Boundary(s, i + 2) then Some(i + 2)
    else None
  }

  /** `AM` or `PM` in any letter case (the `i` flag). */
  predicate IsMeridiem(s: string, w: nat) {
    w + 2 <= |s| && (s[w] in "AaPp") && (s[w + 1] in "Mm")
  }

  /**
    `(\d{1,2}(:\d{2})?)\s*(AM|PM)?` with the `i` flag, at `i`. Everything
    after the first digit is optional, so the greedy choices always succeed
    and the engine never backtracks into them.
   */
  function TimeAt(s: string, i: nat): (r: Option<nat>)
    requires i <= |s|
    ensures r.Some? ==> i < r.value <= |s|
  {
    if i == |s| || !IsDigit(s[i]) then None else
    var h := if DigitsAt(s, i, 2) then i + 2 else i + 1;
    var m := if h < |s| && s[h] == ':' && DigitsAt(s, h + 1, 2) then h + 3 else h;
    var w := SkipSpaces(s, m);
    if IsMeridiem(s, w) then Some(w + 2) else Some(w)
  }

  /** Where a match of `p` that the engine starts at `i` ends, if it matches. */
  function MatchAt(p: Pattern, s: string, i: nat): (r: Option<nat>)
    requires i <= |s|
    ensures r.Some? ==> i < r.value <= |s|
  {
    match p
    case DatePat =>
      (match DateAt(s, i)
       case None => None
       case Some(d) => Some(i + |d.day| + |d.month| + |d.year| + 2))
    case DateLinePat => DateLineAt(s, i)
    case PhonePat => PhoneAt(s, i)
    case TwoDigitPat => TwoDigitAt(s, i)
    case PrizePat => PrizeAt(s, i)
    case TimePat => TimeAt(s, i)
  }

  // ---------------------------------------------------------------------
  // Searching: the leftmost match, all matches, replacement
  // ---------------------------------------------------------------------

  /**
    The leftmost match starting at or after `from` (`exec` without the `g`
    flag): no earlier position matches.
   */
  function FirstMatch(p: Pattern, s: string, from: nat): (r: Option<Span>)
    requires from <= |s|
    ensures r.Some? ==> from <= r.value.start <= |s| && MatchAt(p, s, r.value.start) == Some(r.value.end)
    ensures r.Some? ==> forall q :: from <= q < r.value.start ==> MatchAt(p, s, q).None?
    ensures r.None? ==> forall q :: from <= q <= |s| ==> MatchAt(p, s, q).None?
    decreases |s| - from
  {
    match MatchAt(p, s, from)
    case Some(e) => Some(Span(from, e))
    case None => if from == |s| then None else FirstMatch(p, s, from + 1)
  }

  /** `re.test(s)`. */
  predicate Test(p: Pattern, s: string) {
    FirstMatch(p, s, 0).Some?
  }

  // The global searches are stated once for any matcher `m`, a function
  // from a start position to where the match started there ends, over a
  // text of length `n`; `MatcherOf` gives the matcher of an expression.

  /** Every match ends after its start and within the text. */
  ghost predicate Advances(m: nat -> Option<nat>, n: nat) {
    forall q: nat :: q <= n && m(q).Some? ==> q < m(q).value <= n
  }

  /** No position in `[lo, hi)` starts a match. */
  ghost predicate Silent(m: nat -> Option<nat>, lo: nat, hi: nat) {
    forall q: nat :: lo <= q < hi ==> m(q).None?
  }

  /** The matcher of `p` over `s`. */
  function MatcherOf(p: Pattern, s: string): (m: nat -> Option<nat>)
    ensures Advances(m, |s|)
    ensures forall q: nat :: q <= |s| ==> m(q) == MatchAt(p, s, q)
  {
    (q: nat) => if q <= |s| then MatchAt(p, s, q) else None
  }

  /** No position in `[lo, hi)` starts a match of `p` in `s`. */
  ghost predicate NoMatchIn(p: Pattern, s: string, lo: nat, hi: nat) {
    Silent(MatcherOf(p, s), lo, hi)
  }

  /** Spans in order, each within `[from, n]` and starting no earlier than the previous one ends. */
  predicate Chained(sp: seq<Span>, from: nat, n: nat)
    decreases |sp|
  {
    sp == [] || (from <= sp[0].start <= sp[0].end <= n && Chained(sp[1..], sp[0].end, n))
  }

  /**
    The successive matches from `from`: each search resumes where the
    previous match ended, or one position further when nothing matches.
   */
  function Scan(m: nat -> Option<nat>, n: nat, from: nat): (r: seq<Span>)
    requires from <= n && Advances(m, n)
    ensures forall k :: 0 <= k < |r| ==> from <= r[k].start < r[k].end <= n && m(r[k].start) == Some(r[k].end)
    ensures forall k :: 0 <= k < |r| - 1 ==> r[k].end <= r[k + 1].start
    ensures Chained(r, from, n)
    decreases n - from
  {
    if from == n then []
    else
      match m(from)
      case Some(e) =>
        var rest := Scan(m, n, e);
        assert ([Span(from, e)] + rest)[1..] == rest;
        [Span(from, e)] + rest
      case None => Scan(m, n, from + 1)
  }

  /** The end of the last span, or `from` when there is none. */
  function LastEnd(r: seq<Span>, from: nat): nat {
    if r == [] then from else r[|r| - 1].end
  }

  /** No position between two successive spans starts a match. */
  ghost predicate GapsSilent(m: nat -> Option<nat>, r: seq<Span>) {
    forall k :: 0 < k < |r| ==> Silent(m, r[k - 1].end, r[k].start)
  }

  /** No position before the first span starts a match. */
  lemma {:induction false} ScanLeading(m: nat -> Option<nat>, n: nat, from: nat)
    requires from <= n && Advances(m, n)
    ensures var r := Scan(m, n, from); r != [] ==> Silent(m, from, r[0].start)
    decreases n - from
  {
    if from < n && m(from).None? {
      ScanLeading(m, n, from + 1);
    }
  }

  /** A span in front of spans with silent gaps, with no match between it and them. */
  lemma GapsCons(m: nat -> Option<nat>, x: Span, rest: seq<Span>)
    requires GapsSilent(m, rest)
    requires rest != [] ==> Silent(m, x.end, rest[0].start)
    ensures GapsSilent(m, [x] + rest)
  {
    var r := [x] + rest;
    forall k | 0 < k < |r| ensures Silent(m, r[k - 1].end, r[k].start) {
      assert r[k] == rest[k - 1];
      if k > 1 { assert r[k - 1] == rest[k - 2]; }
    }
  }

  /** No position between two successive spans starts a match. */
  lemma {:induction false} ScanGaps(m: nat -> Option<nat>, n: nat, from: nat)
    requires from <= n && Advances(m, n)
    ensures GapsSilent(m, Scan(m, n, from))
    decreases n - from
  {
    if from < n {
      var next := if m(from).Some? then m(from).value else from + 1;
      ScanGaps(m, n, next);
      if m(from).Some? {
        ScanLeading(m, n, next);
        GapsCons(m, Span(from, next), Scan(m, n, next));
      }
    }
  }

  /** No position after the last span starts a match, up to and including the end. */
  lemma {:induction false} ScanTrailing(m: nat -> Option<nat>, n: nat, from: nat)
    requires from <= n && Advances(m, n)
    ensures Silent(m, LastEnd(Scan(m, n, from), from), n + 1)
    decreases n - from
  {
    if from < n {
      var next := if m(from).Some? then m(from).value else from + 1;
      ScanTrailing(m, n, next);
    }
  }

  /**
    The spans of the successive matches of a global expression from `from`.
    The spans are matches, they come in order and they do not overlap;
    `SpansComplete` shows that no match is skipped.
   */
  function Spans(p: Pattern, s: string, from: nat): (r: seq<Span>)
    requires from <= |s|
    ensures forall k :: 0 <= k < |r| ==> from <= r[k].start <= |s| && MatchAt(p, s, r[k].start) == Some(r[k].end)
    ensures forall k :: 0 <= k < |r| - 1 ==> r[k].end <= r[k + 1].start
    ensures Chained(r, from, |s|)
  {
    Scan(MatcherOf(p, s), |s|, from)
  }

  /**
    The successive matches leave none out: no position before the first
    span, between two spans, or after the last span starts a match. In
    particular there is no span exactly when nothing matches.
   */
  lemma SpansComplete(p: Pattern, s: string, from: nat)
    requires from <= |s|
    ensures var r := Spans(p, s, from);
      && (r != [] ==> NoMatchIn(p, s, from, r[0].start))
      && GapsSilent(MatcherOf(p, s), r)
      && NoMatchIn(p, s, LastEnd(r, from), |s| + 1)
      && (r == [] <==> NoMatchIn(p, s, from, |s| + 1))
  {
    var m := MatcherOf(p, s);
    ScanLeading(m, |s|, from);
    ScanGaps(m, |s|, from);
    ScanTrailing(m, |s|, from);
    var r := Spans(p, s, from);
    if r != [] {
      assert m(r[0].start).Some?;
    }
  }

  /** The matched text of each span. */
  function Texts(s: string, spans: seq<Span>): (r: seq<string>)
    requires forall k :: 0 <= k < |spans| ==> spans[k].start <= spans[k].end <= |s|
    ensures |r| == |spans|
    ensures forall k :: 0 <= k < |r| ==> r[k] == s[spans[k].start..spans[k].end]
  {
    seq(|spans|, k requires 0 <= k < |spans| => s[spans[k].start..spans[k].end])
  }

  /** `s.match(re)` with the `g` flag (an empty array where JavaScript gives `null`). */
  function MatchAll(p: Pattern, s: string): (r: seq<string>)
    ensures var sp := Spans(p, s, 0);
      |r| == |sp| && forall k :: 0 <= k < |r| ==> r[k] == s[sp[k].start..sp[k].end]
  {
    Texts(s, Spans(p, s, 0))
  }

  /** The text from `from` with each of the spans, in order, replaced by one space. */
  function Stitch(s: string, from: nat, sp: seq<Span>): string
    requires from <= |s| && Chained(sp, from, |s|)
    decreases |sp|
  {
    if sp == [] then s[from..]
    else s[from..sp[0].start] + " " + Stitch(s, sp[0].end, sp[1..])
  }

  /** Global replacement with one space, driven by a matcher. */
  function ReplaceWith(m: nat -> Option<nat>, s: string, from: nat): (r: string)
    requires from <= |s| && Advances(m, |s|)
    ensures |r| <= |s| - from
    decreases |s| - from
  {
    if from == |s| then ""
    else
      match m(from)
      case Some(e) => " " + ReplaceWith(m, s, e)
      case None => [s[from]] + ReplaceWith(m, s, from + 1)
  }

  /** Chained spans stay chained from any earlier position. */
  lemma ChainedFrom(sp: seq<Span>, a: nat, b: nat, n: nat)
    requires b <= a && Chained(sp, a, n)
    ensures Chained(sp, b, n)
  {
  }

  /** A character without a match in front of the spans is kept. */
  lemma StitchStep(s: string, from: nat, sp: seq<Span>)
    requires from < |s| && Chained(sp, from + 1, |s|)
    ensures Chained(sp, from, |s|)
    ensures Stitch(s, from, sp) == [s[from]] + Stitch(s, from + 1, sp)
  {
    ChainedFrom(sp, from + 1, from, |s|);
    var a := if sp == [] then |s| else sp[0].start;
    SliceStep(s, from, a);
  }

  /** A slice is its first character followed by the rest. */
  lemma SliceStep(s: string, from: nat, a: nat)
    requires from < a <= |s|
    ensures s[from..a] == [s[from]] + s[from + 1..a]
    ensures a == |s| ==> s[from..] == [s[from]] + s[from + 1..]
  {
    assert s[from..a] == [s[from]] + s[from + 1..a];
  }

  /** The replacement keeps the text outside the matches and puts one space for each. */
  lemma {:induction false} ReplaceStitch(m: nat -> Option<nat>, s: string, from: nat)
    requires from <= |s| && Advances(m, |s|)
    ensures ReplaceWith(m, s, from) == Stitch(s, from, Scan(m, |s|, from))
    decreases |s| - from
  {
    if from < |s| {
      match m(from)
      case Some(e) =>
        var rest := Scan(m, |s|, e);
        ReplaceStitch(m, s, e);
        assert Scan(m, |s|, from) == [Span(from, e)] + rest;
        assert ([Span(from, e)] + rest)[1..] == rest;
      case None =>
        ReplaceStitch(m, s, from + 1);
        StitchStep(s, from, Scan(m, |s|, from + 1));
    }
  }

  /**
    `s.replace(re, ' ')` with the `g` flag, from position `from`: the text
    outside the successive matches is kept in order and every match
    becomes one space. A string with no match is returned unchanged, and
    the result is never longer.
   */
  function ReplaceAll(p: Pattern, s: string, from: nat): (r: string)
    requires from <= |s|
    ensures |r| <= |s| - from
    ensures r == Stitch(s, from, Spans(p, s, from))
    ensures NoMatchIn(p, s, from, |s| + 1) ==> r == s[from..]
  {
    ReplaceStitch(MatcherOf(p, s), s, from);
    SpansComplete(p, s, from);
    ReplaceWith(MatcherOf(p, s), s, from)
  }

  // ---------------------------------------------------------------------
  // What the matches look like
  // ---------------------------------------------------------------------

  /** A `\b\d{2}\b` match is two digits with a word boundary on each side. */
  lemma TwoDigitMatch(s: string, i: nat, e: nat)
    requires i <= |s| && MatchAt(TwoDigitPat, s, i) == Some(e)
    ensures e == i + 2 && AllDigits(s[i..e])
    ensures Boundary(s, i) && Boundary(s, e)
  {
  }

  /** A `\b\d{2,3}\b` match is two or three digits with a word boundary on each side. */
  lemma PrizeMatch(s: string, i: nat, e: nat)
    requires i <= |s| && MatchAt(PrizePat, s, i) == Some(e)
    ensures e == i + 2 || e == i + 3
    ensures AllDigits(s[i..e])
    ensures Boundary(s, i) && Boundary(s, e)
  {
  }

  /** `SkipSpaces` stops exactly at the end of a run of white space. */
  lemma SkipSpacesTo(s: string, i: nat, j: nat)
    requires i <= j <= |s|
    requires forall k :: i <= k < j ==> IsSpace(s[k])
    requires j == |s| || !IsSpace(s[j])
    ensures SkipSpaces(s, i) == j
  {
  }

  /** With the lengths the date expression matched, the date-line expression matches too. */
  lemma DateLineOfDate(s: string, i: nat, dl: nat, ml: nat)
    requires i <= |s| && 1 <= dl && 1 <= ml && TryDate(s, i, dl, ml).Some?
    ensures TryDateLine(s, i, dl, ml).Some?
  {
    var j := i + dl;
    var k := j + 1 + ml;
    SkipSpacesTo(s, j, j);
    SkipSpacesTo(s, j + 1, j + 1);
    SkipSpacesTo(s, k, k);
    SkipSpacesTo(s, k + 1, k + 1);
  }

  /**
    Every date is on a date line: where the date expression matches, the
    date-line expression, which also allows white space around the
    separators and a shorter year, matches as well.
   */
  lemma DateIsDateLine(s: string, i: nat)
    requires i <= |s| && DateAt(s, i).Some?
    ensures DateLineAt(s, i).Some?
  {
    if TryDate(s, i, 2, 2).Some? {
      DateLineOfDate(s, i, 2, 2);
    } else if TryDate(s, i, 2, 1).Some? {
      DateLineOfDate(s, i, 2, 1);
    } else if TryDate(s, i, 1, 2).Some? {
      DateLineOfDate(s, i, 1, 2);
    } else {
      DateLineOfDate(s, i, 1, 1);
    }
  }

  /**
    The strings a phone match covers: four digits, a non-empty run of white
    space holding at most one hyphen, and four digits.
   */
  predicate PhoneShape(s: string, i: nat, e: nat) {
    && i + 9 <= e <= |s|
    && DigitsAt(s, i, 4) && DigitsAt(s, e - 4, 4)
    && (forall k :: i + 4 <= k < e - 4 ==> IsSpace(s[k]) || s[k] == '-')
    && (forall k1, k2 :: i + 4 <= k1 < k2 < e - 4 && s[k1] == '-' ==> s[k2] != '-')
  }

  /** The phone expression matches from `i` to `e` exactly when the text there has the phone shape. */
  lemma PhoneMatchShape(s: string, i: nat, e: nat)
    requires i <= |s|
    ensures MatchAt(PhonePat, s, i) == Some(e) <==> PhoneShape(s, i, e)
  {
    if PhoneShape(s, i, e) {
      var j := e - 4;
      assert !IsSpace(s[j]) && s[j] != '-';
      if h :| i + 4 <= h < j && s[h] == '-' {
        assert forall k :: i + 4 <= k < j && k != h ==> IsSpace(s[k]);
        SkipSpacesTo(s, i + 4, h);
        SkipSpacesTo(s, h + 1, j);
      } else {
        SkipSpacesTo(s, i + 4, j);
      }
    }
  }

  /** The time expression matches exactly where a digit stands. */
  lemma TimeMatchIff(s: string, i: nat)
    requires i <= |s|
    ensures MatchAt(TimePat, s, i).Some? <==> i < |s| && IsDigit(s[i])
  {
  }

  /** A time match ends in a digit, in `M`/`m`, or in the white space after the digits. */
  lemma {:induction false} TimeMatchEnd(s: string, i: nat, e: nat)
    requires i <= |s| && MatchAt(TimePat, s, i) == Some(e)
    ensures IsDigit(s[i])
    ensures IsDigit(s[e - 1]) || s[e - 1] in "Mm" || IsSpace(s[e - 1])
  {
    var h := if DigitsAt(s, i, 2) then i + 2 else i + 1;
    var m := if h < |s| && s[h] == ':' && DigitsAt(s, h + 1, 2) then h + 3 else h;
    assert IsDigit(s[m - 1]);
  }
}
