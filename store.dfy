/**
  The `lottery_results` rows the scrapers write, what an insert comes back
  with, and the externally visible events of one scraper run.
 */
module Store {
  import opened Wrappers

  /**
    What an insert into `lottery_results` comes back with. An `error` the
    client returns and an exception it throws both lead to the same next
    step in the scrapers, so one case stands for both.
   */
  datatype InsertOutcome = Inserted | InsertFailed

  /**
    A `lottery_results` row. The `data` column holds the time, the numbers
    and, for Florida, the original block title.
   */
  datatype Row = Row(
    country: string,
    drawDate: string,
    time: string,
    numbers: seq<string>,
    originalTitle: Option<string>,
    externalId: string,
    rawOcr: string)

  /**
    One externally visible step: the existence query of an attempt (the
    attempt number is 1 for a scraper that tries once), a browser launch,
    an insert, a `browser.close()`, and a sleep of some milliseconds.
   */
  datatype Event = Query(attempt: nat) | Launch | Insert(row: Row) | Close | Sleep(ms: nat)

  /** How a run ended. */
  datatype Outcome =
    | AlreadyStored(attempt: nat)  // the existence query found a row
    | Saved(attempt: nat)          // the insert of that attempt succeeded
    | NotSaved                     // no attempt saved a row

  /** A whole run: its events in order and how it ended. */
  datatype Run = Run(trace: seq<Event>, outcome: Outcome)

  datatype Kind = QueryKind | LaunchKind | InsertKind | CloseKind | SleepKind

  function KindOf(e: Event): Kind {
    match e
    case Query(_) => QueryKind
    case Launch => LaunchKind
    case Insert(_) => InsertKind
    case Close => CloseKind
    case Sleep(_) => SleepKind
  }

  /** The number of events of kind `k` in the trace `t`. */
  function Count(t: seq<Event>, k: Kind): nat {
    if t == [] then 0
    else Count(t[..|t| - 1], k) + (if KindOf(t[|t| - 1]) == k then 1 else 0)
  }

  /** No more events of a kind than events, and none exactly when no event has that kind. */
  lemma {:induction false} CountBounds(t: seq<Event>, k: Kind)
    ensures Count(t, k) <= |t|
    ensures Count(t, k) == 0 <==> forall i :: 0 <= i < |t| ==> KindOf(t[i]) != k
    decreases |t|
  {
    if t != [] {
      var init := t[..|t| - 1];
      CountBounds(init, k);
      assert forall i :: 0 <= i < |init| ==> init[i] == t[i];
    }
  }

  /** Counting distributes over concatenation. */
  lemma {:induction false} CountAppend(a: seq<Event>, b: seq<Event>, k: Kind)
    ensures Count(a + b, k) == Count(a, k) + Count(b, k)
    decreases |b|
  {
    if b != [] {
      var b' := b[..|b| - 1];
      assert (a + b)[..|a + b| - 1] == a + b';
      CountAppend(a, b', k);
    } else {
      assert a + b == a;
    }
  }

  /** The attempt numbers of the queries of a trace, in order. */
  function QueryNumbers(t: seq<Event>): seq<nat> {
    if t == [] then []
    else QueryNumbers(t[..|t| - 1]) + (if t[|t| - 1].Query? then [t[|t| - 1].attempt] else [])
  }

  lemma {:induction false} QueryNumbersAppend(a: seq<Event>, b: seq<Event>)
    ensures QueryNumbers(a + b) == QueryNumbers(a) + QueryNumbers(b)
    decreases |b|
  {
    if b != [] {
      var b' := b[..|b| - 1];
      assert (a + b)[..|a + b| - 1] == a + b';
      QueryNumbersAppend(a, b');
    } else {
      assert a + b == a;
    }
  }

  /** A trace of one element counts that element alone. */
  lemma CountSingle(e: Event, k: Kind)
    ensures Count([e], k) == if KindOf(e) == k then 1 else 0
    ensures QueryNumbers([e]) == if e.Query? then [e.attempt] else []
  {
    assert [e][..0] == [];
  }

  /** The events of one attempt: its own query first, then neither a query nor a sleep. */
  predicate AttemptShaped(ev: seq<Event>, attempt: nat) {
    |ev| >= 1 && ev[0] == Query(attempt) && forall i :: 1 <= i < |ev| ==> !ev[i].Query? && !ev[i].Sleep?
  }

  /** One attempt's events hold one query, numbered with the attempt, and no sleep. */
  lemma {:induction false} ShapedCounts(ev: seq<Event>, attempt: nat)
    requires AttemptShaped(ev, attempt)
    ensures QueryNumbers(ev) == [attempt] && Count(ev, QueryKind) == 1 && Count(ev, SleepKind) == 0
    decreases |ev|
  {
    if |ev| == 1 {
      assert ev == [Query(attempt)];
      CountSingle(Query(attempt), QueryKind);
      CountSingle(Query(attempt), SleepKind);
    } else {
      var init := ev[..|ev| - 1];
      assert init[0] == ev[0];
      ShapedCounts(init, attempt);
    }
  }

  /** A trace with exactly one event of kind `k`, at position `i`, counts one. */
  lemma CountOne(t: seq<Event>, k: Kind, i: nat)
    requires i < |t| && KindOf(t[i]) == k
    requires forall j :: 0 <= j < |t| && j != i ==> KindOf(t[j]) != k
    ensures Count(t, k) == 1
  {
    var a, b := t[..i], t[i + 1..];
    assert t == a + [t[i]] + b;
    assert Count(a, k) == 0 by {
      assert forall j :: 0 <= j < |a| ==> a[j] == t[j];
      CountBounds(a, k);
    }
    assert Count(b, k) == 0 by {
      assert forall j :: 0 <= j < |b| ==> b[j] == t[i + 1 + j];
      CountBounds(b, k);
    }
    CountAppend(a + [t[i]], b, k);
    CountAppend(a, [t[i]], k);
    CountSingle(t[i], k);
  }
}
