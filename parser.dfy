/**
  The OCR-text result parser (`src/lib/parser.js`): it splits the text into
  normalised lines, classifies the game with an ordered keyword table,
  extracts a `D-M-YYYY` date (with a hard-coded year-rollover fix) and a
  best-effort time, and picks the winning numbers with either the
  keyword-anchored Costa Rica scanner or the generic "last three two-digit
  tokens" rule.
 */
module Parser {
  import opened Wrappers
  import opened Text
  import opened Regex
  import opened Seqs

  // =====================================================================
  // Lines: split on '\n', trim, upper-case, drop the empty ones
  // =====================================================================

  /** One line as the parser keeps it: `l.trim().toUpperCase()`. */
  function NormalizeLine(l: string): string {
    Upper(Trim(l))
  }

  /** What every kept line looks like. */
  predicate NormalizedLine(l: string) {
    && l != ""
    && NoLineFeed(l)
    && !IsSpace(l[0]) && !IsSpace(l[|l| - 1])
    && forall i :: 0 <= i < |l| ==> !IsAsciiLower(l[i])
  }

  /** A piece without a line feed normalises to "" or to a proper line. */
  lemma NormalizeLineShape(p: string)
    ensures NoLineFeed(p) ==> NormalizeLine(p) == "" || NormalizedLine(NormalizeLine(p))
  {
    var t := Trim(p);
    var a := LeadingSpaces(p);
    assert t == p[a..a + |t|];
    var l := NormalizeLine(p);
    if l != "" && NoLineFeed(p) {
      forall i | 0 <= i < |l| ensures !IsLineFeed(l[i]) && !IsAsciiLower(l[i]) {
        assert t[i] == p[a + i];
        UpperCharFacts(t[i]);
      }
      UpperCharFacts(t[0]);
      UpperCharFacts(t[|t| - 1]);
    }
  }

  /** The normalised pieces, with the empty ones left out, in order. */
  function KeepNonEmpty(pieces: seq<string>): seq<string>
  {
    if pieces == [] then []
    else
      var l := NormalizeLine(pieces[0]);
      (if l == "" then [] else [l]) + KeepNonEmpty(pieces[1..])
  }

  /** Pieces without line feeds give proper lines only. */
  lemma {:induction false} KeepNonEmptyShape(pieces: seq<string>)
    requires forall k :: 0 <= k < |pieces| ==> NoLineFeed(pieces[k])
    ensures forall k :: 0 <= k < |KeepNonEmpty(pieces)| ==> NormalizedLine(KeepNonEmpty(pieces)[k])
  {
    if pieces != [] {
      var l := NormalizeLine(pieces[0]);
      var head: seq<string> := if l == "" then [] else [l];
      var rest := KeepNonEmpty(pieces[1..]);
      NormalizeLineShape(pieces[0]);
      KeepNonEmptyShape(pieces[1..]);
      assert KeepNonEmpty(pieces) == head + rest;
      NormalizedAppend(head, rest);
    }
  }

  lemma NormalizedAppend(a: seq<string>, b: seq<string>)
    requires forall k :: 0 <= k < |a| ==> NormalizedLine(a[k])
    requires forall k :: 0 <= k < |b| ==> NormalizedLine(b[k])
    ensures forall k :: 0 <= k < |a + b| ==> NormalizedLine((a + b)[k])
  {
    forall k | 0 <= k < |a + b| ensures NormalizedLine((a + b)[k]) {
      if k >= |a| {
        assert (a + b)[k] == b[k - |a|];
      }
    }
  }

  /** `text.split('\n').map(l => l.trim().toUpperCase()).filter(l => l.length > 0)` */
  function Lines(text: string): (lines: seq<string>)
    ensures forall k :: 0 <= k < |lines| ==> NormalizedLine(lines[k])
  {
    SplitJoin(text);
    KeepNonEmptyShape(Split(text));
    KeepNonEmpty(Split(text))
  }

  lemma {:induction false} KeepNonEmptyAppend(a: seq<string>, b: seq<string>)
    ensures KeepNonEmpty(a + b) == KeepNonEmpty(a) + KeepNonEmpty(b)
  {
    if a != [] {
      var l := NormalizeLine(a[0]);
      var head: seq<string> := if l == "" then [] else [l];
      assert (a + b)[0] == a[0] && (a + b)[1..] == a[1..] + b;
      KeepNonEmptyAppend(a[1..], b);
      AppendAssoc(head, KeepNonEmpty(a[1..]), KeepNonEmpty(b));
    } else {
      assert a + b == b;
    }
  }

  /**
    Lines are found line feed by line feed: the lines of `a + "\n" + b` are
    the lines of `a` followed by the lines of `b`, so order is preserved.
   */
  lemma LinesAppend(a: string, b: string)
    ensures Lines(a + "\n" + b) == Lines(a) + Lines(b)
  {
    SplitAppend(a, b);
    KeepNonEmptyAppend(Split(a), Split(b));
  }

  /** A text without a line feed is one line, or none if it is blank. */
  lemma LinesSingle(s: string)
    requires NoLineFeed(s)
    ensures Lines(s) == if NormalizeLine(s) == "" then [] else [NormalizeLine(s)]
  {
    assert Split(s) == [s];
    assert KeepNonEmpty([s]) == (if NormalizeLine(s) == "" then [] else [NormalizeLine(s)]) + KeepNonEmpty([]);
  }

  // =====================================================================
  // Game classification: the ordered GAME_MAP table
  // =====================================================================

  datatype Game = DominicanRepublic | Nicaragua | CostaRica | USA | Honduras

  /** The country string the source stores. */
  function GameName(g: Game): string {
    match g
    case DominicanRepublic => "Dominican Republic"
    case Nicaragua => "Nicaragua"
    case CostaRica => "Costa Rica"
    case USA => "USA"
    case Honduras => "Honduras"
  }

  /** One row of GAME_MAP: a keyword and the country it indicates. */
  datatype Entry = Entry(key: string, game: Game)

  /** GAME_MAP in its insertion order, which is the order `Object.entries` yields. */
  const GameMap: seq<Entry> := [
    Entry("LA PRIMERA", DominicanRepublic),
    Entry("LAPRIMERA", DominicanRepublic),
    Entry("PRIMERA", DominicanRepublic),
    Entry("LA NICA", Nicaragua),
    Entry("LA TICA", CostaRica),
    Entry("LA NEW YORK", USA),
    Entry("NEW YORK", USA),
    Entry("FLORIDA", USA),
    Entry("LA FLORIDA", USA),
    Entry("CHIRIQUI TICA", CostaRica),
    Entry("HONDUREÑA", Honduras),
    Entry("DIARIA", CostaRica)
  ]

  /** A match of one of these countries ends the scan; a Costa Rica match can be overwritten. */
  predicate Halts(g: Game) {
    g == DominicanRepublic || g == Nicaragua || g == USA || g == Honduras
  }

  /** Row `e` stops the scan of the upper-cased text `u`. */
  predicate HaltingMatch(e: Entry, u: string) {
    Halts(e.game) && Contains(u, e.key)
  }

  /**
    The country of the first row, in table order, that stops the scan of
    `u`: the row's key occurs and its country is not Costa Rica.
   */
  function FirstHalting(entries: seq<Entry>, u: string): (r: Option<Game>)
    ensures r.Some? ==> exists k :: 0 <= k < |entries| && HaltingMatch(entries[k], u) && r.value == entries[k].game
                                     && forall j :: 0 <= j < k ==> !HaltingMatch(entries[j], u)
    ensures r.None? <==> forall k :: 0 <= k < |entries| ==> !HaltingMatch(entries[k], u)
    ensures r.Some? ==> Halts(r.value)
    decreases |entries|
  {
    if entries == [] then None
    else
      var init := entries[..|entries| - 1];
      var e := entries[|entries| - 1];
      var prev := FirstHalting(init, u);
      if prev.Some? then prev
      else if HaltingMatch(e, u) then Some(e.game)
      else None
  }

  /** Extending a table after a halting row does not change the first halting row. */
  lemma {:induction false} FirstHaltingPrefix(entries: seq<Entry>, n: nat, u: string)
    requires n <= |entries| && FirstHalting(entries[..n], u).Some?
    ensures FirstHalting(entries, u) == FirstHalting(entries[..n], u)
    decreases |entries| - n
  {
    if n < |entries| {
      assert entries[..n + 1][..n] == entries[..n];
      FirstHaltingPrefix(entries, n + 1, u);
    } else {
      assert entries[..n] == entries;
    }
  }

  /** One more row of the scan: how the first halting row and the Costa Rica rows grow. */
  lemma ScanStep(entries: seq<Entry>, k: nat, u: string)
    requires k < |entries| && FirstHalting(entries[..k], u) == None
    ensures FirstHalting(entries[..k + 1], u) == if HaltingMatch(entries[k], u) then Some(entries[k].game) else None
    ensures SomeCostaRica(entries[..k + 1], u) <==>
      SomeCostaRica(entries[..k], u) || (entries[k].game == CostaRica && Contains(u, entries[k].key))
  {
    var pre := entries[..k + 1];
    assert pre[..k] == entries[..k] && pre[k] == entries[k];
    if SomeCostaRica(pre, u) && !SomeCostaRica(entries[..k], u) {
      var j :| 0 <= j < |pre| && pre[j].game == CostaRica && Contains(u, pre[j].key);
      assert j == k;
    }
    if SomeCostaRica(entries[..k], u) {
      var j :| 0 <= j < k && entries[..k][j].game == CostaRica && Contains(u, entries[..k][j].key);
      assert pre[j] == entries[..k][j];
    }
  }

  /** Some Costa Rica row of `entries` has its key in `u`. */
  predicate SomeCostaRica(entries: seq<Entry>, u: string) {
    exists k :: 0 <= k < |entries| && entries[k].game == CostaRica && Contains(u, entries[k].key)
  }

  /** The Costa Rica rows of GAME_MAP are `LA TICA`, `CHIRIQUI TICA` and `DIARIA`. */
  lemma CostaRicaKeys(u: string)
    ensures SomeCostaRica(GameMap, u) <==>
      (Contains(u, "LA TICA") || Contains(u, "CHIRIQUI TICA") || Contains(u, "DIARIA"))
  {
    if SomeCostaRica(GameMap, u) {
      var k :| 0 <= k < |GameMap| && GameMap[k].game == CostaRica && Contains(u, GameMap[k].key);
      assert k == 4 || k == 9 || k == 11;
    }
    if Contains(u, "LA TICA") { assert GameMap[4].key == "LA TICA"; }
    if Contains(u, "CHIRIQUI TICA") { assert GameMap[9].key == "CHIRIQUI TICA"; }
    if Contains(u, "DIARIA") { assert GameMap[11].key == "DIARIA"; }
  }

  /**
    The classification the scan over GAME_MAP arrives at, stated without
    the loop: the country of the first halting row whose key occurs in the
    upper-cased text; otherwise Costa Rica if `LA TICA`, `CHIRIQUI TICA` or
    `DIARIA` occurs; otherwise no game.
   */
  function Classification(text: string): Option<Game> {
    var u := Upper(text);
    var h := FirstHalting(GameMap, u);
    if h.Some? then h
    else if Contains(u, "LA TICA") || Contains(u, "CHIRIQUI TICA") || Contains(u, "DIARIA") then Some(CostaRica)
    else None
  }

  /** Any text whose upper-cased form contains `PRIMERA` is the Dominican Republic game. */
  lemma ClassifyPrimera(text: string)
    requires Contains(Upper(text), "PRIMERA")
    ensures Classification(text) == Some(DominicanRepublic)
  {
    var u := Upper(text);
    var first3 := GameMap[..3];
    assert first3[..2][..1] == GameMap[..1] && first3[..2] == GameMap[..2];
    assert HaltingMatch(first3[2], u);
    assert FirstHalting(first3, u) == Some(DominicanRepublic);
    FirstHaltingPrefix(GameMap, 3, u);
  }

  /** Costa Rica is only the answer when no halting keyword occurs at all. */
  lemma ClassifyCostaRica(text: string)
    requires Classification(text) == Some(CostaRica)
    ensures forall k :: 0 <= k < |GameMap| ==> !HaltingMatch(GameMap[k], Upper(text))
    ensures Contains(Upper(text), "LA TICA") || Contains(Upper(text), "CHIRIQUI TICA") || Contains(Upper(text), "DIARIA")
  {
  }

  // =====================================================================
  // Date: the leftmost D-M-YYYY, zero-padded, with the 2025 -> 2026 fix
  // =====================================================================

  /** The capture groups of the leftmost match of the date expression. */
  function FirstDate(text: string): (r: Option<DateParts>)
    ensures r.None? <==> forall i :: 0 <= i <= |text| ==> DateAt(text, i).None?
    ensures r.Some? ==> exists i :: 0 <= i <= |text| && DateAt(text, i) == r
                                    && forall j :: 0 <= j < i ==> DateAt(text, j).None?
    ensures r.Some? ==> var d := r.value;
      && AllDigits(d.day) && AllDigits(d.month) && AllDigits(d.year)
      && 1 <= |d.day| <= 2 && 1 <= |d.month| <= 2 && |d.year| == 4
  {
    match FirstMatch(DatePat, text, 0)
    case None =>
      forall q | 0 <= q <= |text| ensures DateAt(text, q).None? {
        assert MatchAt(DatePat, text, q).None?;
      }
      None
    case Some(sp) =>
      forall j | 0 <= j < sp.start ensures DateAt(text, j).None? {
        assert MatchAt(DatePat, text, j).None?;
      }
      DatePartsDigits(text, sp.start);
      DateAt(text, sp.start)
  }

  /** `padStart(2, '0')`. */
  function Pad2(s: string): (r: string)
    ensures |r| == if |s| < 2 then 2 else |s|
    ensures AllDigits(s) ==> AllDigits(r) && DigitsValue(r) == DigitsValue(s)
  {
    if |s| == 0 then "00"
    else if |s| == 1 then
      var r := "0" + s;
      assert r[..1] == "0" && r[..1][..0] == s[..0] == "";
      r
    else s
  }

  /**
    The year-rollover fix. `currentMonth` is the 0-based month of the clock
    (`getMonth()`). The extracted year changes only when the current year is
    2026, the extracted year is "2025" and the current month is January or
    February; it then becomes "2026". Otherwise it is kept verbatim.
   */
  function FixYear(year: string, currentYear: int, currentMonth: int): (r: string)
    ensures r != year <==> (currentYear == 2026 && year == "2025" && currentMonth <= 1)
    ensures r != year ==> r == "2026"
  {
    NatToString2026();
    if currentYear == 2026 && year == "2025" && currentMonth <= 1 then NatToString(currentYear) else year
  }

  /**
    `${year}-${month}-${day}` with day and month zero-padded: ten characters,
    dashes at positions 4 and 7, and the padded fields denote the same
    numbers as the captured ones.
   */
  function FormatDate(year: string, month: string, day: string): (r: string)
    requires |year| == 4 && 1 <= |month| <= 2 && 1 <= |day| <= 2
    requires AllDigits(month) && AllDigits(day)
    ensures |r| == 10 && r[4] == '-' && r[7] == '-' && r[..4] == year
    ensures AllDigits(r[5..7]) && DigitsValue(r[5..7]) == DigitsValue(month)
    ensures AllDigits(r[8..]) && DigitsValue(r[8..]) == DigitsValue(day)
  {
    var r := year + "-" + Pad2(month) + "-" + Pad2(day);
    assert r[5..7] == Pad2(month) && r[8..] == Pad2(day) && r[..4] == year;
    r
  }

  /**
    The `date` field: absent when the text holds no `D-M-YYYY` token;
    otherwise `YYYY-MM-DD` made of the leftmost match, with day and month
    zero-padded to two digits and the year passed through `FixYear`.
   */
  function DateOf(text: string, currentYear: int, currentMonth: int): (r: Option<string>)
    ensures r.None? <==> FirstDate(text).None?
    ensures r.Some? ==>
      var d := FirstDate(text).value;
      && |r.value| == 10 && r.value[4] == '-' && r.value[7] == '-'
      && r.value[..4] == FixYear(d.year, currentYear, currentMonth)
      && AllDigits(r.value[5..7]) && DigitsValue(r.value[5..7]) == DigitsValue(d.month)
      && AllDigits(r.value[8..]) && DigitsValue(r.value[8..]) == DigitsValue(d.day)
  {
    match FirstDate(text)
    case None => None
    case Some(d) =>
      NatToString2026();
      Some(FormatDate(FixYear(d.year, currentYear, currentMonth), d.month, d.day))
  }

  /** The capture groups of a date match are digit strings of the expected lengths. */
  lemma DatePartsDigits(s: string, i: nat)
    requires DateAt(s, i).Some?
    ensures var d := DateAt(s, i).value;
      AllDigits(d.day) && AllDigits(d.month) && AllDigits(d.year)
      && 1 <= |d.day| <= 2 && 1 <= |d.month| <= 2 && |d.year| == 4
  {
  }

  // =====================================================================
  // Time: the trimmed leftmost match of the time expression
  // =====================================================================

  /** `rawTime`: the leftmost match of the time expression, trimmed. */
  function TimeOf(text: string): Option<string>
  {
    match FirstMatch(TimePat, text, 0)
    case None => None
    case Some(sp) => Some(Trim(text[sp.start..sp.end]))
  }

  /**
    `rawTime` is absent exactly when the text holds no digit. Otherwise it
    starts at the first digit, is a slice of the text from there, and does
    not end in white space.
   */
  lemma TimeOfSpec(text: string)
    ensures var r := TimeOf(text);
      && (r.None? <==> FirstFrom(IsDigit, text, 0, |text|) == -1)
      && (r.Some? ==> var p := FirstFrom(IsDigit, text, 0, |text|);
                        p + |r.value| <= |text| && r.value == text[p..p + |r.value|] && TimeShape(r.value))
  {
    TimeFirstMatch(text);
    var m := FirstMatch(TimePat, text, 0);
    if m.Some? {
      TrimmedMatch(text, m.value.start, m.value.end);
    }
  }

  /** What a time token looks like: it starts with a digit and does not end in white space. */
  predicate TimeShape(t: string) {
    |t| >= 1 && IsDigit(t[0]) && !IsSpace(t[|t| - 1])
  }

  /** `rawTime` is present exactly when the text holds a digit. */
  lemma TimePresent(text: string)
    ensures TimeOf(text).Some? <==> exists i :: 0 <= i < |text| && IsDigit(text[i])
  {
    TimeOfSpec(text);
    var p := FirstFrom(IsDigit, text, 0, |text|);
    if p != -1 {
      assert IsDigit(text[p]);
    }
  }

  /** The time expression first matches at the first digit, and nowhere without one. */
  lemma TimeFirstMatch(text: string)
    ensures FirstMatch(TimePat, text, 0).None? <==> FirstFrom(IsDigit, text, 0, |text|) == -1
    ensures var m := FirstMatch(TimePat, text, 0);
      m.Some? ==> m.value.start == FirstFrom(IsDigit, text, 0, |text|) && m.value.start < m.value.end <= |text|
  {
    match FirstMatch(TimePat, text, 0)
    case None =>
      forall i | 0 <= i < |text| ensures !IsDigit(text[i]) { TimeMatchIff(text, i); }
    case Some(sp) =>
      TimeMatchIff(text, sp.start);
      forall j | 0 <= j < sp.start ensures !IsDigit(text[j]) { TimeMatchIff(text, j); }
  }

  /** A match that starts with a digit, trimmed, is a slice from that digit on. */
  lemma TrimmedMatch(text: string, p: nat, e: nat)
    requires p < e <= |text| && IsDigit(text[p])
    ensures var t := Trim(text[p..e]);
      TimeShape(t) && p + |t| <= |text| && t == text[p..p + |t|]
  {
    var m := text[p..e];
    var t := Trim(m);
    assert !IsSpace(m[0]);
    assert LeadingSpaces(m) == 0;
    assert t == m[..|t|];
    assert t != [];
  }

  // =====================================================================
  // Generic numbers: strip dates and phones, keep the last three tokens
  // =====================================================================

  /** The text with date-like runs and then phone-like runs each replaced by a space. */
  function CleanText(text: string): string {
    var noDates := ReplaceAll(DateLinePat, text, 0);
    ReplaceAll(PhonePat, noDates, 0)
  }

  /** All `\b\d{2}\b` tokens of the cleaned text, in order. */
  function TwoDigitTokens(text: string): (tokens: seq<string>)
    ensures AllTwoDigits(tokens)
  {
    var c := CleanText(text);
    var sp := Spans(TwoDigitPat, c, 0);
    forall k | 0 <= k < |sp| ensures sp[k].end == sp[k].start + 2 && AllDigits(c[sp[k].start..sp[k].end]) {
      TwoDigitMatch(c, sp[k].start, sp[k].end);
    }
    MatchAll(TwoDigitPat, c)
  }

  /**
    `parseGenericNumbers`: the last three of the tokens when there are more
    than three, otherwise all of them, in document order.
   */
  function GenericNumbers(text: string): (r: seq<string>)
    ensures var all := TwoDigitTokens(text);
      |r| == (if |all| > 3 then 3 else |all|) && r == all[|all| - |r|..]
    ensures AllTwoDigits(r)
  {
    var all := TwoDigitTokens(text);
    if |all| > 3 then all[|all| - 3..] else all
  }

  // =====================================================================
  // Costa Rica numbers: DIARIA/TICA anchor window and MONAZOS
  // =====================================================================

  function Max(a: int, b: int): int { if a < b then b else a }

  function Min(a: int, b: int): int { if a < b then a else b }

  /** `lines.findIndex(l => l.includes(key))`, searching from `from`. */
  function FindLineFrom(lines: seq<string>, key: string, from: nat): (r: int)
    requires from <= |lines|
    ensures r == -1 || from <= r < |lines|
    ensures r >= 0 ==> Contains(lines[r], key) && forall j :: from <= j < r ==> !Contains(lines[j], key)
    ensures r == -1 ==> forall j :: from <= j < |lines| ==> !Contains(lines[j], key)
    decreases |lines| - from
  {
    if from == |lines| then -1
    else if Contains(lines[from], key) then from
    else FindLineFrom(lines, key, from + 1)
  }

  /** `lines.findIndex(l => l.includes(key))`: the first line holding `key`, or -1. */
  function FindLine(lines: seq<string>, key: string): (r: int)
    ensures -1 <= r < |lines|
    ensures r >= 0 ==> Contains(lines[r], key) && forall j :: 0 <= j < r ==> !Contains(lines[j], key)
    ensures r == -1 <==> forall j :: 0 <= j < |lines| ==> !Contains(lines[j], key)
  {
    FindLineFrom(lines, key, 0)
  }

  /**
    The line the primary prize is searched around: the first `DIARIA` line
    if there is one, otherwise the first `TICA` line, otherwise -1.
   */
  function PrimaryAnchor(lines: seq<string>): (r: int)
    ensures -1 <= r < |lines|
    ensures FindLine(lines, "DIARIA") != -1 ==> r == FindLine(lines, "DIARIA")
    ensures FindLine(lines, "DIARIA") == -1 ==> r == FindLine(lines, "TICA")
  {
    var d := FindLine(lines, "DIARIA");
    if d != -1 then d else FindLine(lines, "TICA")
  }

  /** The date-line test, `/\d{1,2}\s*[-\/]\s*\d{1,2}\s*[-\/]\s*\d{2,4}/.test(line)`. */
  predicate IsDateLine(line: string) {
    Test(DateLinePat, line)
  }

  /** A prize token cut to two digits: `val.length === 3 ? val.slice(-2) : val`. */
  function LastTwo(t: string): string {
    if |t| == 3 then t[1..] else t
  }

  /** On a token of two or three characters, the cut keeps the last two. */
  lemma LastTwoSuffix(t: string)
    requires 2 <= |t| <= 3
    ensures LastTwo(t) == t[|t| - 2..]
  {
    if |t| == 2 {
      assert t[0..] == t;
    }
  }

  /** The first `\b\d{2,3}\b` of a line, cut to two digits. */
  function LinePrize(line: string): (r: Option<string>)
    ensures r.Some? ==> TwoDigits(r.value)
  {
    match FirstMatch(PrizePat, line, 0)
    case None => None
    case Some(sp) =>
      PrizeMatch(line, sp.start, sp.end);
      Some(LastTwo(line[sp.start..sp.end]))
  }

  /**
    A line has no prize exactly when it has no `\b\d{2,3}\b` token, and
    otherwise its prize is the last two characters of the leftmost one.
   */
  lemma LinePrizeLeftmost(line: string)
    ensures LinePrize(line).None? <==> FirstMatch(PrizePat, line, 0).None?
    ensures LinePrize(line).Some? ==> var sp := FirstMatch(PrizePat, line, 0).value; var t := line[sp.start..sp.end];
      |t| >= 2 && LinePrize(line).value == t[|t| - 2..]
  {
    var m := FirstMatch(PrizePat, line, 0);
    if m.Some? {
      PrizeMatch(line, m.value.start, m.value.end);
      LastTwoSuffix(line[m.value.start..m.value.end]);
    }
  }

  /** Each of the given tokens cut to two digits. */
  function CutAll(ms: seq<string>): (r: seq<string>)
    ensures |r| == |ms| && forall k :: 0 <= k < |r| ==> r[k] == LastTwo(ms[k])
  {
    seq(|ms|, k requires 0 <= k < |ms| => LastTwo(ms[k]))
  }

  /**
    All `\b\d{2,3}\b` tokens of a line in order, each cut to its last two
    characters; none on a date line.
   */
  function LineTokens(line: string): (r: seq<string>)
    ensures AllTwoDigits(r)
    ensures IsDateLine(line) ==> r == []
    ensures !IsDateLine(line) ==> var ms := MatchAll(PrizePat, line);
      |r| == |ms| && forall k :: 0 <= k < |r| ==> |ms[k]| >= 2 && r[k] == ms[k][|ms[k]| - 2..]
  {
    if IsDateLine(line) then []
    else
      var sp := Spans(PrizePat, line, 0);
      forall k | 0 <= k < |sp| ensures 2 <= |line[sp[k].start..sp[k].end]| <= 3 && AllDigits(line[sp[k].start..sp[k].end]) {
        PrizeMatch(line, sp[k].start, sp[k].end);
        LastTwoSuffix(line[sp[k].start..sp[k].end]);
      }
      CutAll(MatchAll(PrizePat, line))
  }

  /** A line that yields the primary prize: not a date line, and holding a token. */
  predicate PrizeLine(line: string) {
    !IsDateLine(line) && LinePrize(line).Some?
  }

  /** The primary prize searched in lines `[lo, hi)`: the token of the first prize line. */
  function PrimaryPrize(lines: seq<string>, lo: nat, hi: nat): (r: Option<string>)
    requires lo <= hi <= |lines|
    ensures r.Some? ==> TwoDigits(r.value)
    ensures r.None? <==> forall j :: lo <= j < hi ==> !PrizeLine(lines[j])
  {
    var k := FirstFrom(PrizeLine, lines, lo, hi);
    if k == -1 then None else LinePrize(lines[k])
  }

  /** The tokens of the lines `[i, j)`, one line after another. */
  function TokensIn(lines: seq<string>, i: nat, j: nat): seq<string>
    requires i <= j <= |lines|
  {
    ConcatFrom(LineTokens, lines, i, j)
  }

  /** Every collected token is two digits. */
  lemma TokensInShape(lines: seq<string>, i: nat, j: nat)
    requires i <= j <= |lines|
    ensures AllTwoDigits(TokensIn(lines, i, j))
  {
    ConcatAll(LineTokens, TwoDigits, lines, i, j);
  }

  /** A list of numbers: every element is two digits. */
  predicate AllTwoDigits(ts: seq<string>) {
    forall k :: 0 <= k < |ts| ==> TwoDigits(ts[k])
  }

  lemma AllTwoDigitsAppend(a: seq<string>, b: seq<string>)
    requires AllTwoDigits(a) && AllTwoDigits(b)
    ensures AllTwoDigits(a + b)
  {
    forall k | 0 <= k < |a + b| ensures TwoDigits((a + b)[k]) {
      if k >= |a| {
        assert (a + b)[k] == b[k - |a|];
      }
    }
  }

  /** The first two of a sequence (all of it when shorter): no duplicate is removed. */
  function Take2(s: seq<string>): (r: seq<string>)
    ensures |r| == (if |s| < 2 then |s| else 2) && r == s[..|r|]
  {
    if |s| <= 2 then s else s[..2]
  }

  /** Once two tokens are collected, later lines do not change the first two. */
  lemma Take2Stable(a: seq<string>, b: seq<string>)
    requires |a| >= 2
    ensures Take2(a + b) == Take2(a)
  {
    assert (a + b)[..2] == a[..2];
  }

  /** The window `[max(0, a - 3), a + 10)` around the anchor, cut at the last line. */
  function WindowPrize(lines: seq<string>, anchor: int): (r: Option<string>)
    requires -1 <= anchor < |lines|
    ensures r.Some? ==> TwoDigits(r.value)
    ensures anchor == -1 ==> r.None?
  {
    if anchor == -1 then None else PrimaryPrize(lines, Max(0, anchor - 3), Min(|lines|, anchor + 10))
  }

  /** The first two tokens after the `MONAZOS` line, or none without that line. */
  function Monazos(lines: seq<string>, monazosIdx: int): seq<string>
    requires -1 <= monazosIdx < |lines|
  {
    if monazosIdx == -1 then [] else Take2(TokensIn(lines, monazosIdx + 1, |lines|))
  }

  /**
    At most two monazos, each two digits; none without a `MONAZOS` line,
    and fewer than two when the lines after it hold fewer than two tokens.
   */
  lemma MonazosShape(lines: seq<string>, monazosIdx: int)
    requires -1 <= monazosIdx < |lines|
    ensures var r := Monazos(lines, monazosIdx);
      && |r| <= 2 && AllTwoDigits(r)
      && (monazosIdx == -1 ==> r == [])
      && (monazosIdx != -1 && |TokensIn(lines, monazosIdx + 1, |lines|)| < 2 ==> |r| < 2)
  {
    if monazosIdx != -1 {
      TokensInShape(lines, monazosIdx + 1, |lines|);
    }
  }

  /**
    The Costa Rica result as a value: `[primary, monazo1, monazo2]`, or `[]`.
    The primary prize is searched in lines `[max(0, a - 3), a + 10)` around
    the anchor `a`; the two monazos are the first two tokens on the lines
    after the first `MONAZOS` line; date lines are skipped in both.
   */
  function CostaRicaNumbers(lines: seq<string>): seq<string>
  {
    var prize := WindowPrize(lines, PrimaryAnchor(lines));
    var monazos := Monazos(lines, FindLine(lines, "MONAZOS"));
    if prize.Some? && |monazos| == 2 then [prize.value] + monazos else []
  }

  /** The Costa Rica scanner returns nothing or exactly three two-digit strings. */
  lemma CostaRicaShape(lines: seq<string>)
    ensures var r := CostaRicaNumbers(lines);
      r == [] || (|r| == 3 && AllTwoDigits(r))
  {
    var prize := WindowPrize(lines, PrimaryAnchor(lines));
    var monazos := Monazos(lines, FindLine(lines, "MONAZOS"));
    MonazosShape(lines, FindLine(lines, "MONAZOS"));
    if prize.Some? && |monazos| == 2 {
      AllTwoDigitsAppend([prize.value], monazos);
    }
  }

  /** The three ways the Costa Rica scanner comes back empty. */
  lemma CostaRicaEmpty(lines: seq<string>)
    ensures (forall j :: 0 <= j < |lines| ==> !Contains(lines[j], "DIARIA") && !Contains(lines[j], "TICA"))
              ==> CostaRicaNumbers(lines) == []
    ensures (forall j :: 0 <= j < |lines| ==> !Contains(lines[j], "MONAZOS")) ==> CostaRicaNumbers(lines) == []
    ensures (var mz := FindLine(lines, "MONAZOS"); mz != -1 && |TokensIn(lines, mz + 1, |lines|)| < 2)
              ==> CostaRicaNumbers(lines) == []
  {
    var a := PrimaryAnchor(lines);
    var mz := FindLine(lines, "MONAZOS");
    if forall j :: 0 <= j < |lines| ==> !Contains(lines[j], "DIARIA") && !Contains(lines[j], "TICA") {
      assert FindLine(lines, "DIARIA") == -1 && FindLine(lines, "TICA") == -1;
      assert WindowPrize(lines, a).None?;
    }
    if forall j :: 0 <= j < |lines| ==> !Contains(lines[j], "MONAZOS") {
      assert mz == -1;
      assert Monazos(lines, mz) == [];
    }
    if mz != -1 && |TokensIn(lines, mz + 1, |lines|)| < 2 {
      MonazosShape(lines, mz);
    }
  }

  /**
    A full Costa Rica result is the primary prize of the anchor window
    followed by the two monazos.
   */
  lemma CostaRicaFull(lines: seq<string>)
    requires CostaRicaNumbers(lines) != []
    ensures var r := CostaRicaNumbers(lines);
      && |r| == 3
      && WindowPrize(lines, PrimaryAnchor(lines)) == Some(r[0])
      && Monazos(lines, FindLine(lines, "MONAZOS")) == r[1..]
  {
  }

  /**
    A primary prize is the one searched in the window
    `[max(0, a - 3), a + 10)` around the anchor `a`, which is the first
    `DIARIA` line when there is one.
   */
  lemma WindowPrizeFound(lines: seq<string>, p: string)
    requires WindowPrize(lines, PrimaryAnchor(lines)) == Some(p)
    ensures var a := PrimaryAnchor(lines);
      && a != -1
      && (FindLine(lines, "DIARIA") != -1 ==> a == FindLine(lines, "DIARIA"))
      && PrimaryPrize(lines, Max(0, a - 3), Min(|lines|, a + 10)) == Some(p)
  {
  }

  /**
    A primary prize found in `[lo, hi)` is the token of the first line
    there that is not a date line and holds a prize token.
   */
  lemma PrimaryPrizeFound(lines: seq<string>, lo: nat, hi: nat, p: string)
    requires lo <= hi <= |lines|
    requires PrimaryPrize(lines, lo, hi) == Some(p)
    ensures var k := FirstFrom(PrizeLine, lines, lo, hi);
      && lo <= k < hi && !IsDateLine(lines[k]) && LinePrize(lines[k]) == Some(p)
      && forall j :: lo <= j < k ==> !PrizeLine(lines[j])
  {
  }

  /**
    Two monazos are the first two tokens on the lines after the first
    `MONAZOS` line, in order and with duplicates kept.
   */
  lemma MonazosFound(lines: seq<string>)
    requires |Monazos(lines, FindLine(lines, "MONAZOS"))| == 2
    ensures var mz := FindLine(lines, "MONAZOS");
      && mz != -1
      && |TokensIn(lines, mz + 1, |lines|)| >= 2
      && Monazos(lines, mz) == TokensIn(lines, mz + 1, |lines|)[..2]
  {
  }

  /** Section 1 of `parseCostaRicaNumbers`: the primary prize, found in the window around the anchor. */
  method ScanPrimary(lines: seq<string>, primaryAnchorIdx: int) returns (ticaPrize: Option<string>)
    requires -1 <= primaryAnchorIdx < |lines|
    ensures ticaPrize == WindowPrize(lines, primaryAnchorIdx)
  {
    ticaPrize := None;
    if primaryAnchorIdx != -1 {
      var lo := Max(0, primaryAnchorIdx - 3);
      var hi := Min(|lines|, primaryAnchorIdx + 10);
      for i := lo to hi
        invariant ticaPrize == None
        invariant FirstFrom(PrizeLine, lines, i, hi) == FirstFrom(PrizeLine, lines, lo, hi)
      {
        var line := lines[i];
        if IsDateLine(line) {
          continue;
        }
        var m := FirstMatch(PrizePat, line, 0);
        if m.Some? {
          var val := line[m.value.start..m.value.end];
          ticaPrize := Some(LastTwo(val));
          assert PrizeLine(line) && ticaPrize == LinePrize(line);
          if ticaPrize.value != "" {
            break;
          }
        }
      }
    }
  }

  /**
    The inner loop of section 2: the tokens of one line are pushed while
    fewer than two are collected.
   */
  method PushTokens(acc: seq<string>, lineMatches: seq<string>) returns (r: seq<string>)
    requires |acc| < 2
    ensures r == Take2(acc + CutAll(lineMatches))
  {
    r := acc;
    for j := 0 to |lineMatches|
      invariant r == Take2(acc + CutAll(lineMatches[..j]))
    {
      var t := LastTwo(lineMatches[j]);
      var before := acc + CutAll(lineMatches[..j]);
      assert acc + CutAll(lineMatches[..j + 1]) == before + [t];
      if |r| < 2 {
        r := r + [t];
      } else {
        Take2Stable(before, [t]);
      }
    }
    assert lineMatches[..|lineMatches|] == lineMatches;
  }

  /**
    One line of section 2: a date line is skipped, the tokens of any other
    line are pushed while fewer than two are collected.
   */
  method MonazoLine(line: string, acc: seq<string>) returns (r: seq<string>)
    requires |acc| < 2
    ensures r == Take2(acc + LineTokens(line))
  {
    if IsDateLine(line) {
      assert acc + LineTokens(line) == acc;
      return acc;
    }
    var lineMatches := MatchAll(PrizePat, line);
    r := PushTokens(acc, lineMatches);
  }

  /**
    One step of the loop of section 2: with fewer than two tokens from the
    lines `[from, i)`, the tokens after line `i` are either still fewer than
    two, or already the first two of all the lines from `from` on.
   */
  lemma MonazoStep(lines: seq<string>, from: nat, i: nat, acc: seq<string>, next: seq<string>)
    requires from <= i < |lines|
    requires acc == TokensIn(lines, from, i) && |acc| < 2
    requires next == Take2(acc + LineTokens(lines[i]))
    ensures |next| < 2 ==> next == TokensIn(lines, from, i + 1)
    ensures |next| >= 2 ==> next == Take2(TokensIn(lines, from, |lines|))
  {
    var grown := acc + LineTokens(lines[i]);
    assert TokensIn(lines, from, i + 1) == grown;
    if |grown| < 2 {
      assert next == grown[..|grown|];
    } else {
      MonazosSettled(lines, from, i);
    }
  }

  /** Once two monazos are collected by line `i`, the later lines do not change them. */
  lemma MonazosSettled(lines: seq<string>, from: nat, i: nat)
    requires from <= i < |lines|
    requires |TokensIn(lines, from, i + 1)| >= 2
    ensures Take2(TokensIn(lines, from, |lines|)) == Take2(TokensIn(lines, from, i + 1))
  {
    ConcatSplit(LineTokens, lines, from, i + 1, |lines|);
    Take2Stable(TokensIn(lines, from, i + 1), TokensIn(lines, i + 1, |lines|));
  }

  /** The loop of section 2: the first two tokens of the lines from `from` on. */
  method CollectMonazos(lines: seq<string>, from: nat) returns (monazoPrizes: seq<string>)
    requires from <= |lines|
    ensures monazoPrizes == Take2(TokensIn(lines, from, |lines|))
  {
    monazoPrizes := [];
    for i := from to |lines|
      invariant monazoPrizes == TokensIn(lines, from, i) && |monazoPrizes| < 2
    {
      ghost var before := monazoPrizes;
      monazoPrizes := MonazoLine(lines[i], monazoPrizes);
      MonazoStep(lines, from, i, before, monazoPrizes);
      if |monazoPrizes| >= 2 {
        return;
      }
    }
  }

  /** Section 2 of `parseCostaRicaNumbers`: up to two monazos from the lines after `MONAZOS`. */
  method ScanMonazos(lines: seq<string>, monazosIdx: int) returns (monazoPrizes: seq<string>)
    requires -1 <= monazosIdx < |lines|
    ensures monazoPrizes == Monazos(lines, monazosIdx)
  {
    monazoPrizes := [];
    if monazosIdx != -1 {
      monazoPrizes := CollectMonazos(lines, monazosIdx + 1);
    }
  }

  /** `parseCostaRicaNumbers`: the anchors, the two scans, and the all-or-nothing result. */
  method ParseCostaRicaNumbers(lines: seq<string>) returns (numbers: seq<string>)
    ensures numbers == CostaRicaNumbers(lines)
  {
    var diariaIdx := FindLine(lines, "DIARIA");
    var ticaIdx := FindLine(lines, "TICA");
    var monazosIdx := FindLine(lines, "MONAZOS");

    var primaryAnchorIdx := if diariaIdx != -1 then diariaIdx else ticaIdx;
    var ticaPrize := ScanPrimary(lines, primaryAnchorIdx);
    var monazoPrizes := ScanMonazos(lines, monazosIdx);

    // A prize always has two characters, so it is truthy whenever it is present.
    numbers := if ticaPrize.Some? && |monazoPrizes| == 2 then [ticaPrize.value] + monazoPrizes else [];
  }

  // =====================================================================
  // parseLotteryResults
  // =====================================================================

  /** What `parseLotteryResults` returns; `None` stands for JavaScript's `null`. */
  datatype ParseResult = ParseResult(
    game: Option<Game>,
    date: Option<string>,
    numbers: seq<string>,
    rawTime: Option<string>,
    raw: string)

  /**
    Step 1 of `parseLotteryResults`: the scan over GAME_MAP that overwrites
    the game on every match and stops at the first halting country. It
    arrives at `Classification`.
   */
  method Classify(text: string) returns (game: Option<Game>)
    ensures game == Classification(text)
  {
    game := None;
    var u := Upper(text);
    var table := GameMap;
    for k := 0 to |table|
      invariant FirstHalting(table[..k], u) == None
      invariant game == if SomeCostaRica(table[..k], u) then Some(CostaRica) else None
    {
      var entry := table[k];
      ScanStep(table, k, u);
      if Contains(u, entry.key) {
        game := Some(entry.game);
        if Halts(entry.game) {
          FirstHaltingPrefix(table, k + 1, u);
          break;
        }
      }
    }
    CostaRicaKeys(u);
    assert GameMap[..|GameMap|] == GameMap;
  }

  /** Step 2 of `parseLotteryResults`: the first date, padded and with its year corrected. */
  method ExtractDate(text: string, currentYear: int, currentMonth: int) returns (date: Option<string>)
    ensures date == DateOf(text, currentYear, currentMonth)
  {
    date := None;
    var dateMatch := FirstDate(text);
    if dateMatch.Some? {
      var day := Pad2(dateMatch.value.day);
      var month := Pad2(dateMatch.value.month);
      var year := dateMatch.value.year;
      if currentYear == 2026 && year == "2025" {
        if currentMonth <= 1 {
          year := NatToString(currentYear);
        }
      }
      date := Some(year + "-" + month + "-" + day);
    }
  }

  /** Step 3 of `parseLotteryResults`: the first time match, trimmed. */
  method ExtractTime(text: string) returns (rawTime: Option<string>)
    ensures rawTime == TimeOf(text)
  {
    var timeMatch := FirstMatch(TimePat, text, 0);
    rawTime := None;
    if timeMatch.Some? {
      rawTime := Some(Trim(text[timeMatch.value.start..timeMatch.value.end]));
    }
  }

  /**
    `parseLotteryResults`, with `new Date()` replaced by the current year
    and the 0-based current month. The game is the table scan's result, the
    Costa Rica scanner is used exactly for the Costa Rica game, and there
    are never more than three numbers.
   */
  method ParseLotteryResults(text: string, currentYear: int, currentMonth: int) returns (r: ParseResult)
    ensures r.game == Classification(text)
    ensures r.date == DateOf(text, currentYear, currentMonth)
    ensures r.rawTime == TimeOf(text)
    ensures r.numbers == if r.game == Some(CostaRica) then CostaRicaNumbers(Lines(text)) else GenericNumbers(text)
    ensures |r.numbers| <= 3
    ensures r.raw == text
  {
    var lines := Lines(text);
    var numbers: seq<string> := [];

    // 1. Game identification
    var game := Classify(text);

    // 2. Date extraction
    var date := ExtractDate(text, currentYear, currentMonth);

    // 3. Time extraction
    var rawTime := ExtractTime(text);

    // 4. Number extraction
    if game == Some(CostaRica) {
      numbers := ParseCostaRicaNumbers(lines);
      CostaRicaShape(lines);
    } else {
      numbers := GenericNumbers(text);
    }

    r := ParseResult(game, date, numbers, rawTime, text);
  }
}
