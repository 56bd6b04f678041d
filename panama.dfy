/**
  `scrapePanama`: one check for the day's Lotería Nacional de Beneficencia
  result. If the store already has a Panama row for the date it stops;
  otherwise it reads the result boards of the page and inserts the first
  board whose date label names the day, the Spanish month and the year.
  The store, the page and the insert are inputs.
 */
module Panama {
  import opened Wrappers
  import opened Text
  import opened Store

  /** The Spanish month names, January first. */
  const MonthNames: seq<string> := [
    "enero", "febrero", "marzo", "abril", "mayo", "junio",
    "julio", "agosto", "septiembre", "octubre", "noviembre", "diciembre"
  ]

  // =====================================================================
  // The page callback: choosing the board
  // =====================================================================

  /**
    A `div.containerTablero` board: the text of its `.date` element (`None`
    when it has none) and of its `.premio-number` elements in document order.
   */
  datatype Container = Container(dateLabel: Option<string>, prizes: seq<string>)

  /** What the page callback returns. */
  datatype Found = Found(time: string, numbers: seq<string>)

  /**
    The label test: the trimmed, lower-cased label contains the day's
    numeral, the month's Spanish name and the year's numeral, each
    anywhere.
   */
  predicate LabelMatches(dateLabel: string, day: nat, month: nat, year: nat)
    requires 1 <= month <= 12
  {
    var dateText := Lower(Trim(dateLabel));
    && Contains(dateText, NatToString(day))
    && Contains(dateText, MonthNames[month - 1])
    && Contains(dateText, NatToString(year))
  }

  /** Every prize text trimmed, none dropped. */
  function TrimAll(texts: seq<string>): (r: seq<string>)
    ensures |r| == |texts| && forall k :: 0 <= k < |r| ==> r[k] == Trim(texts[k])
  {
    seq(|texts|, k requires 0 <= k < |texts| => Trim(texts[k]))
  }

  /** A board the callback returns: a matching label and at least three prizes. */
  predicate Yields(c: Container, day: nat, month: nat, year: nat)
    requires 1 <= month <= 12
  {
    c.dateLabel.Some? && LabelMatches(c.dateLabel.value, day, month, year) && |c.prizes| >= 3
  }

  /** The first board from position `i` on that the callback returns, or -1. */
  function FirstYieldingFrom(cs: seq<Container>, day: nat, month: nat, year: nat, i: nat): (r: int)
    requires 1 <= month <= 12 && i <= |cs|
    ensures r == -1 || i <= r < |cs|
    ensures r >= 0 ==> Yields(cs[r], day, month, year) && forall j :: i <= j < r ==> !Yields(cs[j], day, month, year)
    ensures r == -1 <==> forall j :: i <= j < |cs| ==> !Yields(cs[j], day, month, year)
    decreases |cs| - i
  {
    if i == |cs| then -1
    else if Yields(cs[i], day, month, year) then i
    else FirstYieldingFrom(cs, day, month, year, i + 1)
  }

  /**
    The callback's result: the first board with a matching label and at
    least three prizes gives the afternoon time and its first three prizes,
    trimmed; a matching board with fewer prizes is passed over; with no
    such board the result is none.
   */
  function FirstMatching(cs: seq<Container>, day: nat, month: nat, year: nat): (r: Option<Found>)
    requires 1 <= month <= 12
    ensures r.None? <==> forall k :: 0 <= k < |cs| ==> !Yields(cs[k], day, month, year)
    ensures r.Some? ==> exists k :: 0 <= k < |cs| && Yields(cs[k], day, month, year)
                                    && r.value.numbers == TrimAll(cs[k].prizes)[..3]
                                    && forall j :: 0 <= j < k ==> !Yields(cs[j], day, month, year)
    ensures r.Some? ==> r.value.time == "3:30 PM" && |r.value.numbers| == 3
  {
    var k := FirstYieldingFrom(cs, day, month, year, 0);
    if k == -1 then None else Some(Found("3:30 PM", TrimAll(cs[k].prizes)[..3]))
  }

  /** The `forEach` over a board's prize elements, pushing each trimmed text. */
  method CollectPrizes(texts: seq<string>) returns (prizes: seq<string>)
    ensures prizes == TrimAll(texts)
  {
    prizes := [];
    for j := 0 to |texts|
      invariant |prizes| == j && forall k :: 0 <= k < j ==> prizes[k] == Trim(texts[k])
    {
      prizes := prizes + [Trim(texts[j])];
    }
  }

  /** The page callback: a loop over the boards with an early return. */
  method SelectContainer(containers: seq<Container>, day: nat, month: nat, year: nat) returns (r: Option<Found>)
    requires 1 <= month <= 12
    ensures r == FirstMatching(containers, day, month, year)
  {
    var targetMonth := MonthNames[month - 1];
    for i := 0 to |containers|
      invariant FirstYieldingFrom(containers, day, month, year, i) == FirstYieldingFrom(containers, day, month, year, 0)
    {
      var container := containers[i];
      if container.dateLabel.None? {
        continue;
      }
      var dateText := Lower(Trim(container.dateLabel.value));
      if Contains(dateText, NatToString(day)) && Contains(dateText, targetMonth) && Contains(dateText, NatToString(year)) {
        var prizes := CollectPrizes(container.prizes);
        if |prizes| >= 3 {
          return Some(Found("3:30 PM", prizes[..3]));
        }
      }
    }
    return None;
  }

  // =====================================================================
  // The label test, as written
  // =====================================================================

  /**
    The day is found as a substring: a label that passes for day `d2`
    passes for every day whose numeral occurs in the numeral of `d2`.
   */
  lemma LabelSubsumes(dateLabel: string, d1: nat, d2: nat, month: nat, year: nat)
    requires 1 <= month <= 12
    requires Contains(NatToString(d2), NatToString(d1))
    requires LabelMatches(dateLabel, d2, month, year)
    ensures LabelMatches(dateLabel, d1, month, year)
  {
    ContainsTrans(Lower(Trim(dateLabel)), NatToString(d2), NatToString(d1));
  }

  /** In particular a label for the 21st is also taken for the 1st and the 2nd. */
  lemma TwentyFirstPassesForFirst(dateLabel: string, month: nat, year: nat)
    requires 1 <= month <= 12
    requires LabelMatches(dateLabel, 21, month, year)
    ensures LabelMatches(dateLabel, 1, month, year) && LabelMatches(dateLabel, 2, month, year)
  {
    assert NatToString(2) == "2" && NatToString(1) == "1";
    assert NatToString(21) == "21";
    ContainsAt("21", "2", 0);
    ContainsAt("21", "1", 1);
    LabelSubsumes(dateLabel, 1, 21, month, year);
    LabelSubsumes(dateLabel, 2, 21, month, year);
  }

  /**
    A day whose numeral occurs in the year's numeral is not checked at all:
    for such a day the label test is the month and the year alone.
   */
  lemma DayInsideYear(dateLabel: string, day: nat, month: nat, year: nat)
    requires 1 <= month <= 12
    requires Contains(NatToString(year), NatToString(day))
    ensures LabelMatches(dateLabel, day, month, year) <==>
      (Contains(Lower(Trim(dateLabel)), MonthNames[month - 1]) && Contains(Lower(Trim(dateLabel)), NatToString(year)))
  {
    if Contains(Lower(Trim(dateLabel)), NatToString(year)) {
      ContainsTrans(Lower(Trim(dateLabel)), NatToString(year), NatToString(day));
    }
  }

  /** In 2026 the 2nd, the 20th and the 26th are such days. */
  lemma DaysInside2026()
    ensures Contains(NatToString(2026), NatToString(2))
    ensures Contains(NatToString(2026), NatToString(20))
    ensures Contains(NatToString(2026), NatToString(26))
  {
    NatToString2026();
    assert NatToString(2) == "2" && NatToString(20) == "20" && NatToString(26) == "26";
    ContainsAt("2026", "2", 0);
    ContainsAt("2026", "20", 0);
    ContainsAt("2026", "26", 2);
  }

  // =====================================================================
  // The single check
  // =====================================================================

  /** What the page evaluation came to: something threw, or the callback ran over the boards. */
  datatype PageLoad = PageFailed | Loaded(containers: seq<Container>)

  /** What the outside world answers: the existence query, the page, and the insert. */
  datatype PanamaEnv = PanamaEnv(existing: bool, page: PageLoad, insert: InsertOutcome)

  /** What the check sees. A page that threw and a page without a result lead to the same events. */
  datatype Observation = Observation(existing: bool, found: Option<Found>, insert: InsertOutcome)

  function Observe(env: PanamaEnv, day: nat, month: nat, year: nat): Observation
    requires 1 <= month <= 12
  {
    var found := match env.page
      case PageFailed => None
      case Loaded(cs) => FirstMatching(cs, day, month, year);
    Observation(env.existing, found, env.insert)
  }

  /** The row the check inserts. */
  function PanamaRow(dateStr: string, f: Found): (row: Row)
    ensures row.country == "Panama" && row.drawDate == dateStr && row.externalId == "lnb-pa-" + dateStr
    ensures row.time == f.time && row.numbers == f.numbers && row.originalTitle == None
  {
    Row("Panama", dateStr, f.time, f.numbers, None, "lnb-pa-" + dateStr, "LNB Panama Website Scrape - " + dateStr)
  }

  /**
    The events and the end of the check. The query is attempt 1 of 1; an
    insert that fails is not retried and the check ends without a saved row.
   */
  function PanamaRun(o: Observation, dateStr: string): Run {
    if o.existing then Run([Query(1)], AlreadyStored(1))
    else match o.found
      case None => Run([Query(1), Launch, Close], NotSaved)
      case Some(f) =>
        Run([Query(1), Launch, Insert(PanamaRow(dateStr, f)), Close],
            if o.insert == Inserted then Saved(1) else NotSaved)
  }

  /**
    `scrapePanama` with `dateStr`, the day, the month (1 to 12) and the
    year given: the existence check with its early return, then the page
    and at most one insert.
   */
  method ScrapePanama(dateStr: string, day: nat, month: nat, year: nat, env: PanamaEnv)
    returns (outcome: Outcome, trace: seq<Event>)
    requires 1 <= month <= 12
    ensures Run(trace, outcome) == PanamaRun(Observe(env, day, month, year), dateStr)
  {
    ghost var o := Observe(env, day, month, year);
    // Hunt mode: stop early when the day is already stored
    if env.existing {
      return AlreadyStored(1), [Query(1)];
    }
    var results: Option<Found> := None;
    match env.page {
      case PageFailed =>
      case Loaded(containers) =>
        results := SelectContainer(containers, day, month, year);
    }
    assert o.found == results;
    if results.None? {
      // the catch or the "no results yet" branch, then the close in `finally`
      return NotSaved, [Query(1), Launch, Close];
    }
    var row := PanamaRow(dateStr, results.value);
    // an insert error is logged, not retried
    outcome := if env.insert == Inserted then Saved(1) else NotSaved;
    trace := [Query(1), Launch, Insert(row), Close];
  }

  // =====================================================================
  // Properties of the check
  // =====================================================================

  /**
    One check: exactly one query and no sleep, so no retry; nothing is
    launched or inserted when the day is already stored; and a row is
    inserted exactly when none was stored and the page gave a result.
   */
  lemma SingleShot(o: Observation, dateStr: string)
    ensures var t := PanamaRun(o, dateStr).trace;
      && Count(t, QueryKind) == 1 && Count(t, SleepKind) == 0
      && (o.existing ==> t == [Query(1)])
      && (Count(t, InsertKind) == 1 <==> !o.existing && o.found.Some?)
      && Count(t, InsertKind) <= 1
  {
    var t := PanamaRun(o, dateStr).trace;
    assert AttemptShaped(t, 1);
    ShapedCounts(t, 1);
    if !o.existing && o.found.Some? {
      CountOne(t, InsertKind, 2);
    } else {
      assert forall i :: 0 <= i < |t| ==> KindOf(t[i]) != InsertKind;
      CountBounds(t, InsertKind);
    }
  }

  /** The check saves a row exactly when none was stored, the page gave a result and the insert went through. */
  lemma PanamaOutcome(o: Observation, dateStr: string)
    ensures var r := PanamaRun(o, dateStr);
      && (r.outcome == Saved(1) <==> !o.existing && o.found.Some? && o.insert == Inserted)
      && (r.outcome == AlreadyStored(1) <==> o.existing)
      && (r.outcome == NotSaved <==> !o.existing && (o.found.None? || o.insert == InsertFailed))
  {
  }

  /**
    The row the check inserts is a Panama row for the date, with the
    afternoon time, the day's external id and three numbers.
   */
  lemma PanamaRowShape(env: PanamaEnv, dateStr: string, day: nat, month: nat, year: nat)
    requires 1 <= month <= 12
    ensures var t := PanamaRun(Observe(env, day, month, year), dateStr).trace;
      forall i :: 0 <= i < |t| && t[i].Insert? ==>
        && t[i].row.country == "Panama" && t[i].row.drawDate == dateStr && t[i].row.time == "3:30 PM"
        && t[i].row.externalId == "lnb-pa-" + dateStr && |t[i].row.numbers| == 3
  {
  }
}
