/**
  `scrapeFlorida`: the persistent hunt for the Florida Noche result. Up to
  fifteen attempts; each one first asks the store whether the day's row is
  already there, then reads the page's game blocks and inserts the first
  Florida Noche block of the day. The store, the page and the insert are
  an oracle indexed by the attempt number; the sleep is a trace event.
 */
module Florida {
  import opened Wrappers
  import opened Text
  import opened Store
  import Seqs

  const MaxRetries: nat := 15

  /** Two minutes, in milliseconds. */
  const RetryDelayMs: nat := 2 * 60 * 1000

  // =====================================================================
  // The page callback: choosing the block
  // =====================================================================

  /**
    A `.game-block` element: the text of its `.game-title span` (`None`
    when there is no such element), of its `.session-date`, and of its
    `.score, .session-ball` elements in document order.
   */
  datatype Block = Block(title: Option<string>, sessionDate: Option<string>, scores: seq<string>)

  /** What the page callback returns: the trimmed title and three numbers. */
  datatype Found = Found(title: string, numbers: seq<string>)

  /** The score texts trimmed, with the empty ones dropped, in order. */
  function Scores(scores: seq<string>): (r: seq<string>)
    ensures |r| <= |scores|
    ensures forall k :: 0 <= k < |r| ==> r[k] != [] && Trim(r[k]) == r[k]
  {
    if scores == [] then []
    else
      var t := Trim(scores[0]);
      assert Trim(t) == t by { TrimTrimmed(scores[0]); }
      (if t == [] then [] else [t]) + Scores(scores[1..])
  }

  /** `trim()` is idempotent. */
  lemma TrimTrimmed(s: string)
    ensures Trim(Trim(s)) == Trim(s)
  {
    var t := Trim(s);
    if t != [] {
      assert LeadingSpaces(t) == 0;
      assert TrailingCut(t[0..]) == |t| by { assert t[0..] == t; }
      assert t[0..][..|t|] == t;
    }
  }

  /** When every score is non-empty once trimmed, all of them are kept, trimmed and in order. */
  lemma {:induction false} ScoresAllKept(scores: seq<string>)
    requires forall k :: 0 <= k < |scores| ==> Trim(scores[k]) != []
    ensures |Scores(scores)| == |scores|
    ensures forall k :: 0 <= k < |scores| ==> Scores(scores)[k] == Trim(scores[k])
  {
    if scores != [] {
      ScoresAllKept(scores[1..]);
      assert Scores(scores) == [Trim(scores[0])] + Scores(scores[1..]);
    }
  }

  /** Trimming and dropping blanks goes score by score. */
  lemma {:induction false} ScoresAppend(a: seq<string>, b: seq<string>)
    ensures Scores(a + b) == Scores(a) + Scores(b)
    decreases |a|
  {
    if a == [] {
      assert a + b == b;
    } else {
      var t := Trim(a[0]);
      var head: seq<string> := if t == [] then [] else [t];
      assert (a + b)[0] == a[0] && (a + b)[1..] == a[1..] + b;
      ScoresAppend(a[1..], b);
      Seqs.AppendAssoc(head, Scores(a[1..]), Scores(b));
    }
  }

  /** One score is kept, trimmed, unless it is blank. */
  lemma ScoresSingle(x: string)
    ensures Scores([x]) == if Trim(x) == [] then [] else [Trim(x)]
  {
    assert [x][1..] == [];
  }

  /**
    A block the callback accepts: it has a title holding both `Florida`
    and `Noche`, a session date equal to the target `dd-MM` once trimmed,
    and at least three non-empty scores.
   */
  predicate Accepts(b: Block, targetDayMonth: string) {
    && b.title.Some?
    && Contains(Trim(b.title.value), "Florida")
    && Contains(Trim(b.title.value), "Noche")
    && b.sessionDate.Some?
    && Trim(b.sessionDate.value) == targetDayMonth
    && |Scores(b.scores)| >= 3
  }

  /** The result an accepted block yields. */
  function Yield(b: Block): Found
    requires b.title.Some? && |Scores(b.scores)| >= 3
  {
    Found(Trim(b.title.value), Scores(b.scores)[..3])
  }

  /** The first accepted block from position `i` on, or -1. */
  function FirstAcceptedFrom(blocks: seq<Block>, targetDayMonth: string, i: nat): (r: int)
    requires i <= |blocks|
    ensures r == -1 || i <= r < |blocks|
    ensures r >= 0 ==> Accepts(blocks[r], targetDayMonth) && forall j :: i <= j < r ==> !Accepts(blocks[j], targetDayMonth)
    ensures r == -1 <==> forall j :: i <= j < |blocks| ==> !Accepts(blocks[j], targetDayMonth)
  {
    Seqs.FirstFrom((b: Block) => Accepts(b, targetDayMonth), blocks, i, |blocks|)
  }

  /** One step of the search: the block at `i` is the one, or the search goes on. */
  lemma FirstAcceptedStep(blocks: seq<Block>, targetDayMonth: string, i: nat)
    requires i < |blocks|
    ensures FirstAcceptedFrom(blocks, targetDayMonth, i)
            == if Accepts(blocks[i], targetDayMonth) then i else FirstAcceptedFrom(blocks, targetDayMonth, i + 1)
  {
  }

  /**
    The block the callback picks: the first accepted one in document order,
    or none.
   */
  function FirstAccepted(blocks: seq<Block>, targetDayMonth: string): (r: Option<Found>)
    ensures r.None? <==> forall k :: 0 <= k < |blocks| ==> !Accepts(blocks[k], targetDayMonth)
    ensures r.Some? ==> exists k :: 0 <= k < |blocks| && Accepts(blocks[k], targetDayMonth)
                                    && r.value == Yield(blocks[k])
                                    && forall j :: 0 <= j < k ==> !Accepts(blocks[j], targetDayMonth)
    ensures r.Some? ==> |r.value.numbers| == 3 && Contains(r.value.title, "Florida") && Contains(r.value.title, "Noche")
  {
    var k := FirstAcceptedFrom(blocks, targetDayMonth, 0);
    if k == -1 then None else Some(Yield(blocks[k]))
  }

  /** The page callback: a loop over the blocks with an early return. */
  method SelectBlock(blocks: seq<Block>, targetDayMonth: string) returns (r: Option<Found>)
    ensures r == FirstAccepted(blocks, targetDayMonth)
  {
    for i := 0 to |blocks|
      invariant FirstAcceptedFrom(blocks, targetDayMonth, i) == FirstAcceptedFrom(blocks, targetDayMonth, 0)
    {
      FirstAcceptedStep(blocks, targetDayMonth, i);
      var block := blocks[i];
      if block.title.None? {
        continue;
      }
      var title := Trim(block.title.value);
      if Contains(title, "Florida") && Contains(title, "Noche") {
        if block.sessionDate.Some? && Trim(block.sessionDate.value) == targetDayMonth {
          var numbers := Scores(block.scores);
          if |numbers| >= 3 {
            return Some(Found(title, numbers[..3]));
          }
        }
      }
    }
    return None;
  }

  // =====================================================================
  // The hunt
  // =====================================================================

  /**
    What the page evaluation of one attempt comes to: something between the
    new context and the callback threw, or the callback ran over the blocks.
   */
  datatype PageLoad = PageFailed | Loaded(blocks: seq<Block>)

  /**
    What the outside world answers in one attempt: whether the existence
    query found a row, what the page gave, and how an insert would end.
   */
  datatype AttemptEnv = AttemptEnv(existing: bool, page: PageLoad, insert: InsertOutcome)

  /**
    What the callback of an attempt comes to. A page that threw and a page
    without an accepted block lead to the same events: the catch or the
    "not published yet" branch, then the close in `finally`.
   */
  function Evaluate(page: PageLoad, todayStr: string): Option<Found> {
    match page
    case PageFailed => None
    case Loaded(blocks) => FirstAccepted(blocks, todayStr)
  }

  /** What the hunt sees of one attempt. */
  datatype Observation = Observation(existing: bool, found: Option<Found>, insert: InsertOutcome)

  /** What the hunt sees of every attempt. */
  function Observe(env: nat -> AttemptEnv, todayStr: string): nat -> Observation {
    (a: nat) => Observation(env(a).existing, Evaluate(env(a).page, todayStr), env(a).insert)
  }

  /** Every block the callback yields carries three numbers. */
  ghost predicate ThreeNumbers(obs: nat -> Observation) {
    forall a :: obs(a).found.Some? ==> |obs(a).found.value.numbers| == 3
  }

  lemma ObserveThreeNumbers(env: nat -> AttemptEnv, todayStr: string)
    ensures ThreeNumbers(Observe(env, todayStr))
  {
    forall a | Observe(env, todayStr)(a).found.Some?
      ensures |Observe(env, todayStr)(a).found.value.numbers| == 3
    {
      assert env(a).page.Loaded?;
    }
  }

  /** The row an attempt inserts. */
  function FloridaRow(dateStr: string, f: Found, attempt: nat): (row: Row)
    ensures row.country == "USA" && row.drawDate == dateStr && row.time == "9:50 PM"
    ensures row.externalId == "usa-fl-noche-" + dateStr
    ensures row.numbers == f.numbers && row.originalTitle == Some(f.title)
  {
    Row("USA", dateStr, "9:50 PM", f.numbers, Some(f.title), "usa-fl-noche-" + dateStr,
        "Florida Noche - Conectate Scrape - " + dateStr + " (Attempt " + NatToString(attempt) + ")")
  }

  /** An attempt either ends the hunt or lets it go on. */
  datatype Step = Continue(events: seq<Event>) | Stop(events: seq<Event>, outcome: Outcome)

  /** One attempt, up to and excluding the sleep. */
  function AttemptStep(attempt: nat, o: Observation, dateStr: string): Step
  {
    if o.existing then Stop([Query(attempt)], AlreadyStored(attempt))
    else match o.found
      case None => Continue([Query(attempt), Launch, Close])
      case Some(f) =>
        var row := FloridaRow(dateStr, f, attempt);
        if o.insert == Inserted then Stop([Query(attempt), Launch, Insert(row), Close, Close], Saved(attempt))
        else Continue([Query(attempt), Launch, Insert(row), Close])
  }

  /** An attempt that does not end the hunt. */
  predicate Fails(o: Observation) {
    !o.existing && !(o.found.Some? && o.insert == Inserted)
  }

  /**
    An attempt starts with its own query and has no other query and no
    sleep; whatever it inserts is the row of the block the callback found.
   */
  lemma AttemptStepShape(attempt: nat, o: Observation, dateStr: string)
    ensures var s := AttemptStep(attempt, o, dateStr);
      && AttemptShaped(s.events, attempt)
      && forall i :: 0 <= i < |s.events| && s.events[i].Insert? ==>
           o.found.Some? && s.events[i].row == FloridaRow(dateStr, o.found.value, attempt)
  {
  }

  /**
    An attempt ends the hunt exactly when it does not fail: with the row
    already stored when the query finds it, and saved otherwise.
   */
  lemma AttemptStepOutcome(attempt: nat, o: Observation, dateStr: string)
    ensures var s := AttemptStep(attempt, o, dateStr);
      && (s.Stop? <==> !Fails(o))
      && (s.Stop? && o.existing ==> s.outcome == AlreadyStored(attempt))
      && (s.Stop? && !o.existing ==> s.outcome == Saved(attempt) && o.found.Some? && o.insert == Inserted)
  {
  }

  /** The sleep after an attempt: none after the last one. */
  function Pause(attempt: nat): seq<Event> {
    if attempt < MaxRetries then [Sleep(RetryDelayMs)] else []
  }

  /** The hunt from attempt `attempt` on. */
  function HuntFrom(attempt: nat, obs: nat -> Observation, dateStr: string): Run
    requires attempt >= 1
    decreases MaxRetries + 1 - attempt
  {
    if attempt > MaxRetries then Run([], NotSaved)
    else match AttemptStep(attempt, obs(attempt), dateStr)
      case Stop(events, outcome) => Run(events, outcome)
      case Continue(events) =>
        var rest := HuntFrom(attempt + 1, obs, dateStr);
        Run(events + Pause(attempt) + rest.trace, rest.outcome)
  }

  /** The whole hunt. */
  function Hunt(env: nat -> AttemptEnv, dateStr: string, todayStr: string): Run {
    HuntFrom(1, Observe(env, todayStr), dateStr)
  }

  /** One attempt of the hunt, unfolded. */
  lemma HuntUnfold(attempt: nat, obs: nat -> Observation, dateStr: string)
    requires 1 <= attempt <= MaxRetries
    ensures var step := AttemptStep(attempt, obs(attempt), dateStr); var r := HuntFrom(attempt, obs, dateStr);
      && (step.Stop? ==> r == Run(step.events, step.outcome))
      && (step.Continue? ==>
            r == Run(step.events + Pause(attempt) + HuntFrom(attempt + 1, obs, dateStr).trace,
                     HuntFrom(attempt + 1, obs, dateStr).outcome))
  {
  }

  /**
    The body of one attempt of `scrapeFlorida`, up to the sleep: the
    existence check, the launch, the page callback, the insert and the
    closes. It either ends the hunt or lets it go on, as `AttemptStep` says.
   */
  method RunAttempt(attempt: nat, env: nat -> AttemptEnv, dateStr: string, todayStr: string) returns (step: Step)
    ensures step == AttemptStep(attempt, Observe(env, todayStr)(attempt), dateStr)
  {
    var e := env(attempt);
    ghost var o := Observe(env, todayStr)(attempt);
    assert o == Observation(e.existing, Evaluate(e.page, todayStr), e.insert);
    // 1. Existence check
    if e.existing {
      return Stop([Query(attempt)], AlreadyStored(attempt));
    }
    var result: Option<Found> := None;
    match e.page {
      case PageFailed =>
      case Loaded(blocks) =>
        result := SelectBlock(blocks, todayStr);
    }
    assert o.found == result;
    if result.None? {
      // the catch or the "not published yet" branch, then the close in `finally`
      return Continue([Query(attempt), Launch, Close]);
    }
    var row := FloridaRow(dateStr, result.value, attempt);
    if e.insert == Inserted {
      // the close after the save, then the one in `finally`
      return Stop([Query(attempt), Launch, Insert(row), Close, Close], Saved(attempt));
    }
    return Continue([Query(attempt), Launch, Insert(row), Close]);
  }

  /**
    `scrapeFlorida` with `dateStr` and `todayStr` given: the attempt loop
    with its early returns and the sleep between attempts. It performs the
    events of `Hunt` and ends the way `Hunt` says.
   */
  method ScrapeFlorida(dateStr: string, todayStr: string, env: nat -> AttemptEnv)
    returns (outcome: Outcome, trace: seq<Event>)
    ensures trace == Hunt(env, dateStr, todayStr).trace
    ensures outcome == Hunt(env, dateStr, todayStr).outcome
  {
    ghost var obs := Observe(env, todayStr);
    trace := [];
    var attempt := 1;
    while attempt <= MaxRetries
      invariant 1 <= attempt <= MaxRetries + 1
      invariant trace + HuntFrom(attempt, obs, dateStr).trace == Hunt(env, dateStr, todayStr).trace
      invariant HuntFrom(attempt, obs, dateStr).outcome == Hunt(env, dateStr, todayStr).outcome
      decreases MaxRetries + 1 - attempt
    {
      var step := RunAttempt(attempt, env, dateStr, todayStr);
      HuntUnfold(attempt, obs, dateStr);
      if step.Stop? {
        trace := trace + step.events;
        return step.outcome, trace;
      }
      var events := step.events;
      if attempt < MaxRetries {
        events := events + [Sleep(RetryDelayMs)];
      }
      Seqs.AppendAssoc(trace, events, HuntFrom(attempt + 1, obs, dateStr).trace);
      trace := trace + events;
      attempt := attempt + 1;
    }
    outcome := NotSaved;
  }

  // =====================================================================
  // Properties of the hunt
  // =====================================================================

  /** An attempt's events, its pause and the rest of the hunt, counted. */
  lemma StepThenRest(ev: seq<Event>, attempt: nat, p: seq<Event>, rest: seq<Event>)
    requires AttemptShaped(ev, attempt)
    requires p == [] || p == [Sleep(RetryDelayMs)]
    ensures QueryNumbers(ev + p + rest) == [attempt] + QueryNumbers(rest)
    ensures Count(ev + p + rest, QueryKind) == 1 + Count(rest, QueryKind)
    ensures Count(ev + p + rest, SleepKind) == |p| + Count(rest, SleepKind)
  {
    ShapedCounts(ev, attempt);
    QueryNumbersAppend(ev + p, rest);
    QueryNumbersAppend(ev, p);
    CountAppend(ev + p, rest, SleepKind);
    CountAppend(ev, p, SleepKind);
    CountAppend(ev + p, rest, QueryKind);
    CountAppend(ev, p, QueryKind);
    if p == [] {
      assert ev + p == ev;
    } else {
      CountSingle(Sleep(RetryDelayMs), SleepKind);
      CountSingle(Sleep(RetryDelayMs), QueryKind);
    }
  }

  /** One attempt of the hunt, counted: its query, and its sleep when the hunt goes on. */
  lemma HuntStepCounts(attempt: nat, obs: nat -> Observation, dateStr: string)
    requires 1 <= attempt <= MaxRetries
    ensures var step := AttemptStep(attempt, obs(attempt), dateStr);
      var t := HuntFrom(attempt, obs, dateStr).trace;
      var rest := HuntFrom(attempt + 1, obs, dateStr).trace;
      && (step.Stop? ==>
            QueryNumbers(t) == [attempt] && Count(t, QueryKind) == 1 && Count(t, SleepKind) == 0)
      && (step.Continue? ==>
            && QueryNumbers(t) == [attempt] + QueryNumbers(rest)
            && Count(t, QueryKind) == 1 + Count(rest, QueryKind)
            && Count(t, SleepKind) == |Pause(attempt)| + Count(rest, SleepKind))
  {
    var step := AttemptStep(attempt, obs(attempt), dateStr);
    AttemptStepShape(attempt, obs(attempt), dateStr);
    HuntUnfold(attempt, obs, dateStr);
    if step.Stop? {
      ShapedCounts(step.events, attempt);
    } else {
      StepThenRest(step.events, attempt, Pause(attempt), HuntFrom(attempt + 1, obs, dateStr).trace);
    }
  }

  /** The attempt numbers `q` run consecutively from `first`. */
  predicate Consecutive(q: seq<nat>, first: nat) {
    forall i :: 0 <= i < |q| ==> q[i] == first + i
  }

  lemma ConsecutiveCons(first: nat, q: seq<nat>)
    requires Consecutive(q, first + 1)
    ensures Consecutive([first] + q, first)
  {
    forall i | 0 <= i < |[first] + q| ensures ([first] + q)[i] == first + i {
      if i > 0 {
        assert ([first] + q)[i] == q[i - 1];
      }
    }
  }

  /**
    The queries of a hunt are numbered consecutively from the first
    attempt, there is at least one, and there are never more than the
    attempts left.
   */
  lemma {:induction false} HuntQueries(attempt: nat, obs: nat -> Observation, dateStr: string)
    requires 1 <= attempt <= MaxRetries
    ensures var q := QueryNumbers(HuntFrom(attempt, obs, dateStr).trace);
      1 <= |q| <= MaxRetries + 1 - attempt && Consecutive(q, attempt)
    decreases MaxRetries + 1 - attempt
  {
    HuntStepCounts(attempt, obs, dateStr);
    if AttemptStep(attempt, obs(attempt), dateStr).Continue? {
      if attempt < MaxRetries {
        HuntQueries(attempt + 1, obs, dateStr);
        ConsecutiveCons(attempt, QueryNumbers(HuntFrom(attempt + 1, obs, dateStr).trace));
      } else {
        assert HuntFrom(attempt + 1, obs, dateStr).trace == [];
      }
    }
  }

  /** There is one sleep fewer than there are queries: none follows the attempt that ends the hunt. */
  lemma {:induction false} HuntSleeps(attempt: nat, obs: nat -> Observation, dateStr: string)
    requires 1 <= attempt <= MaxRetries
    ensures var t := HuntFrom(attempt, obs, dateStr).trace;
      Count(t, SleepKind) + 1 == Count(t, QueryKind)
    decreases MaxRetries + 1 - attempt
  {
    HuntStepCounts(attempt, obs, dateStr);
    if AttemptStep(attempt, obs(attempt), dateStr).Continue? {
      if attempt < MaxRetries {
        HuntSleeps(attempt + 1, obs, dateStr);
      } else {
        assert HuntFrom(attempt + 1, obs, dateStr).trace == [];
      }
    }
  }

  /**
    How the hunt ends, in terms of the attempts: it is exhausted exactly
    when every attempt fails; it stops at attempt `a` with the row already
    stored, or with the row saved, only when every earlier attempt failed.
   */
  lemma {:induction false} HuntOutcome(attempt: nat, obs: nat -> Observation, dateStr: string)
    requires attempt >= 1
    ensures var o := HuntFrom(attempt, obs, dateStr).outcome;
      && (o.NotSaved? <==> forall a :: attempt <= a <= MaxRetries ==> Fails(obs(a)))
      && (o.AlreadyStored? ==>
            && attempt <= o.attempt <= MaxRetries && obs(o.attempt).existing
            && forall a :: attempt <= a < o.attempt ==> Fails(obs(a)))
      && (o.Saved? ==>
            && attempt <= o.attempt <= MaxRetries && !obs(o.attempt).existing
            && obs(o.attempt).found.Some? && obs(o.attempt).insert == Inserted
            && forall a :: attempt <= a < o.attempt ==> Fails(obs(a)))
    decreases MaxRetries + 1 - attempt
  {
    if attempt <= MaxRetries {
      HuntOutcome(attempt + 1, obs, dateStr);
      var step := AttemptStep(attempt, obs(attempt), dateStr);
      AttemptStepOutcome(attempt, obs(attempt), dateStr);
      HuntUnfold(attempt, obs, dateStr);
    }
  }

  /** A hunt in which every attempt fails makes exactly 15 queries and 14 sleeps. */
  lemma AllFailing(obs: nat -> Observation, dateStr: string)
    requires forall a :: 1 <= a <= MaxRetries ==> Fails(obs(a))
    ensures HuntFrom(1, obs, dateStr).outcome == NotSaved
    ensures Count(HuntFrom(1, obs, dateStr).trace, QueryKind) == 15
    ensures Count(HuntFrom(1, obs, dateStr).trace, SleepKind) == 14
  {
    HuntOutcome(1, obs, dateStr);
    HuntExhaustedQueries(1, obs, dateStr);
    HuntSleeps(1, obs, dateStr);
  }

  /** A hunt that never stops makes one query per remaining attempt. */
  lemma {:induction false} HuntExhaustedQueries(attempt: nat, obs: nat -> Observation, dateStr: string)
    requires 1 <= attempt <= MaxRetries + 1
    requires forall a :: attempt <= a <= MaxRetries ==> Fails(obs(a))
    ensures Count(HuntFrom(attempt, obs, dateStr).trace, QueryKind) == MaxRetries + 1 - attempt
    decreases MaxRetries + 1 - attempt
  {
    if attempt <= MaxRetries {
      assert Fails(obs(attempt));
      AttemptStepOutcome(attempt, obs(attempt), dateStr);
      HuntStepCounts(attempt, obs, dateStr);
      HuntExhaustedQueries(attempt + 1, obs, dateStr);
    }
  }

  /**
    The way the trace ends: after a row was found already stored, the last
    event is that attempt's query, so nothing was launched or inserted in
    it; after a save, the last events are the insert and the two closes, so
    nothing follows it.
   */
  lemma {:induction false} HuntEnds(attempt: nat, obs: nat -> Observation, dateStr: string)
    requires attempt >= 1
    ensures var r := HuntFrom(attempt, obs, dateStr); var t := r.trace;
      && (r.outcome.AlreadyStored? ==> |t| >= 1 && t[|t| - 1] == Query(r.outcome.attempt))
      && (r.outcome.Saved? ==>
            && |t| >= 3 && t[|t| - 3].Insert? && t[|t| - 2] == Close && t[|t| - 1] == Close
            && t[|t| - 3].row.externalId == "usa-fl-noche-" + dateStr)
    decreases MaxRetries + 1 - attempt
  {
    if attempt <= MaxRetries {
      var step := AttemptStep(attempt, obs(attempt), dateStr);
      if step.Continue? {
        HuntEnds(attempt + 1, obs, dateStr);
        var r := HuntFrom(attempt + 1, obs, dateStr);
        var pre := step.events + Pause(attempt);
        assert HuntFrom(attempt, obs, dateStr).trace == pre + r.trace;
        if r.outcome.AlreadyStored? || r.outcome.Saved? {
          var t := pre + r.trace;
          assert t[|t| - 1] == r.trace[|r.trace| - 1];
          if r.outcome.Saved? {
            assert t[|t| - 3] == r.trace[|r.trace| - 3] && t[|t| - 2] == r.trace[|r.trace| - 2];
          }
        }
      }
    }
  }

  /** A row as the hunt writes it: USA, the hunted date, the official time, the day's id, three numbers. */
  predicate FloridaRowShape(row: Row, dateStr: string) {
    && row.country == "USA" && row.drawDate == dateStr && row.time == "9:50 PM"
    && row.externalId == "usa-fl-noche-" + dateStr && |row.numbers| == 3
  }

  /** Every insert of the trace writes a row of that shape. */
  predicate RowsShaped(t: seq<Event>, dateStr: string) {
    forall i :: 0 <= i < |t| && t[i].Insert? ==> FloridaRowShape(t[i].row, dateStr)
  }

  /** Every row the hunt inserts has the shape above. */
  lemma {:induction false} HuntRows(attempt: nat, obs: nat -> Observation, dateStr: string)
    requires attempt >= 1 && ThreeNumbers(obs)
    ensures RowsShaped(HuntFrom(attempt, obs, dateStr).trace, dateStr)
    decreases MaxRetries + 1 - attempt
  {
    if attempt <= MaxRetries {
      var step := AttemptStep(attempt, obs(attempt), dateStr);
      AttemptStepShape(attempt, obs(attempt), dateStr);
      HuntUnfold(attempt, obs, dateStr);
      assert obs(attempt).found.Some? ==> |obs(attempt).found.value.numbers| == 3;
      assert RowsShaped(step.events, dateStr);
      if step.Continue? {
        HuntRows(attempt + 1, obs, dateStr);
        var pre := step.events + Pause(attempt);
        var rest := HuntFrom(attempt + 1, obs, dateStr).trace;
        assert RowsShaped(pre, dateStr);
        RowsShapedAppend(pre, rest, dateStr);
      }
    }
  }

  lemma RowsShapedAppend(a: seq<Event>, b: seq<Event>, dateStr: string)
    requires RowsShaped(a, dateStr) && RowsShaped(b, dateStr)
    ensures RowsShaped(a + b, dateStr)
  {
    forall i | 0 <= i < |a + b| && (a + b)[i].Insert?
      ensures FloridaRowShape((a + b)[i].row, dateStr)
    {
      if i >= |a| {
        assert (a + b)[i] == b[i - |a|];
      }
    }
  }

  /** The rows `scrapeFlorida` inserts all have the shape above. */
  lemma FloridaRows(env: nat -> AttemptEnv, dateStr: string, todayStr: string)
    ensures RowsShaped(Hunt(env, dateStr, todayStr).trace, dateStr)
  {
    ObserveThreeNumbers(env, todayStr);
    HuntRows(1, Observe(env, todayStr), dateStr);
  }
}
