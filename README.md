# Lottery result scrapers and OCR parser, in Dafny

This project models the logic of a small lottery-results collector:

- the OCR-text parser `parseLotteryResults`. It splits the text into
  normalised lines and classifies the game with the ordered `GAME_MAP`
  keyword table. It extracts a `D-M-YYYY` date, applying the year-rollover
  fix, and a best-effort time. It then picks the winning numbers with one of
  two extractors: the keyword-anchored Costa Rica scanner (`DIARIA`/`TICA`
  window and `MONAZOS`), or the generic rule, which strips dates and phones
  and keeps the last three two-digit tokens;
- the Florida Noche "hunt" `scrapeFlorida`. It makes up to fifteen attempts,
  and each attempt does the following:
  - it asks the store whether the day's row exists;
  - it reads the page's game blocks;
  - it inserts the first Florida Noche block of the day.

  A stored row or a successful insert ends the hunt. There is a two-minute
  sleep between attempts, and none after the last one;
- the Panama check `scrapePanama`: one existence query, then one page
  evaluation that picks the first results board whose date label names the
  day, the Spanish month and the year, then at most one insert;
- the request filter installed by `enableAdBlocker`, which continues or
  aborts each request from its URL and resource type.

Modules:
- `Text` covers the JavaScript string built-ins: `trim`, ASCII case
  mapping, `includes`, `split('\n')` and `toString`.
- `Regex` hand-models each regular expression as a matcher at a position,
  tried in the order a backtracking engine tries its alternatives. It also
  provides the leftmost-match, all-matches and replace-all drivers. The
  global drivers are stated once over any matcher, that is, any function
  from a start position to where a match ends.
- `Parser` covers `parser.js`.
- `Store` covers the `lottery_results` rows and the trace of externally
  visible events: queries, launches, inserts, closes and sleeps.
- `Florida`, `Panama` and `ResourceBlocker` cover the scrapers and the filter.
- `Seqs` holds two generic loop shapes: first index satisfying a predicate,
  and concatenation over a range. It also holds the regrouping of
  concatenations.

The store, the page and the insert are inputs to the model. For Florida they
form an oracle indexed by the attempt number. The clock enters the parser as
the current year and the 0-based current month.

Where the code and its description differ, the model follows the code:
- The year fix is hard-coded. A `2025` date becomes `2026` only when the
  current year is 2026 and the month index is at most 1. There is no
  general "year + 1" rule.
- The parser has none of the following: monazo de-duplication, gap-filling
  after a short Costa Rica result, a 20/25/26 noise filter, or OCR
  letter/digit repair.
- Monazo numbers are taken only from the lines after the `MONAZOS` line.
  Tokens on the `MONAZOS` line itself or before it are never monazos. The
  result is `[]` unless two tokens occur on later non-date lines, and
  then those two are taken as the monazos, whatever the lines say.

## Model

| member | source | states |
|---|---|---|
| Text.Trim | src/lib/parser.js:7 | `trim()` gives the slice of the input between its leading and trailing white space; the result starts and ends with non-space, is empty exactly when the input is all white space, and everything after it in the input is white space |
| Text.SplitJoin | src/lib/parser.js:7 | `split('\n')` gives at least one piece, no piece holds a line feed, and joining the pieces with line feeds gives back the text |
| Text.SplitAppend | src/lib/parser.js:7 | the pieces of `a + "\n" + b` are the pieces of `a` followed by those of `b` |
| Parser.NormalizeLineShape | src/lib/parser.js:7 | a piece without a line feed, trimmed and upper-cased, is empty or a proper line: non-empty, no line feed, no white space at either end, no lower-case ASCII letter |
| Parser.KeepNonEmptyShape | src/lib/parser.js:7 | mapping and filtering pieces without line feeds keeps proper lines only |
| Parser.Lines | src/lib/parser.js:7 | every element of `lines` is a proper line |
| Parser.LinesAppend | src/lib/parser.js:7 | the lines of `a + "\n" + b` are the lines of `a` followed by the lines of `b`, so line order is preserved |
| Parser.LinesSingle | src/lib/parser.js:7 | a text without a line feed gives its trimmed, upper-cased self as its one line, or no line when it is blank |
| Parser.FirstHalting | src/lib/parser.js:29-36 | the first table row, in `GAME_MAP` order, whose country is not Costa Rica and whose key occurs; `None` exactly when no such row exists; the result is always a halting country |
| Parser.FirstHaltingPrefix | src/lib/parser.js:30-36 | rows after the first halting match do not change the result, which is what the `break` relies on |
| Parser.ScanStep | src/lib/parser.js:30-36 | one more row of the scan: the first halting row and the "some Costa Rica key occurs" flag grow as the loop body sets them |
| Parser.CostaRicaKeys | src/lib/parser.js:14-27 | the Costa Rica rows of `GAME_MAP` are exactly `LA TICA`, `CHIRIQUI TICA` and `DIARIA` |
| Parser.Classify | src/lib/parser.js:29-36 | the overwriting scan with `break` gives the first halting country; failing that, Costa Rica when a Costa Rica key occurs; failing that, no game |
| Parser.ClassifyPrimera | src/lib/parser.js:14-36 | any text whose upper-cased form contains `PRIMERA` classifies as Dominican Republic |
| Parser.ClassifyCostaRica | src/lib/parser.js:14-36 | Costa Rica is the result only when no halting key occurs and `LA TICA`, `CHIRIQUI TICA` or `DIARIA` does |
| Regex.DateAt | src/lib/parser.js:39 | a date match at a position has a 1-2 digit day, a 1-2 digit month and a 4-digit year, all within the text |
| Regex.FirstMatch | src/lib/parser.js:40 | the leftmost match: it matches at its start, and no earlier position matches; `None` exactly when no position matches |
| Parser.FirstDate | src/lib/parser.js:39-40 | `None` exactly when no position matches the date expression; otherwise the capture groups of the leftmost match, which are digit strings of lengths 1-2, 1-2 and 4 |
| Parser.DatePartsDigits | src/lib/parser.js:39 | the capture groups of a date match are digit strings of the expected lengths |
| Parser.Pad2 | src/lib/parser.js:42-43 | `padStart(2, '0')` has length `max(2, n)` and denotes the same number |
| Parser.FixYear | src/lib/parser.js:46-50 | the year changes exactly when the current year is 2026, the year is `"2025"` and the month index is at most 1, and then it becomes `"2026"` |
| Parser.FormatDate | src/lib/parser.js:51 | ten characters `YYYY-MM-DD`, with dashes at 4 and 7, the year verbatim, and two-digit month and day denoting the captured numbers |
| Parser.DateOf | src/lib/parser.js:39-51 | `date` is null exactly when there is no date match; otherwise it is built from the leftmost match with its year passed through the fix |
| Parser.ExtractDate | src/lib/parser.js:40-52 | the imperative date step computes `DateOf` |
| Regex.TimeMatchIff | src/lib/parser.js:56 | the time expression matches at a position exactly when a digit stands there |
| Regex.TimeMatchEnd | src/lib/parser.js:56 | a time match starts with a digit and ends in a digit, `M`/`m` or white space |
| Parser.TimeFirstMatch | src/lib/parser.js:56-57 | the leftmost time match starts at the first digit of the text, and there is none without a digit |
| Parser.TrimmedMatch | src/lib/parser.js:60 | a match starting with a digit, trimmed, is a slice of the text from that digit and ends in non-space |
| Parser.TimeOfSpec | src/lib/parser.js:56-61 | `rawTime` is null exactly when the text has no digit; otherwise it is a slice from the first digit that starts with a digit and does not end in white space |
| Parser.TimePresent | src/lib/parser.js:56-61 | `rawTime` is non-null exactly when the text holds a digit |
| Parser.ExtractTime | src/lib/parser.js:57-61 | the imperative time step computes `TimeOf` |
| Parser.ParseLotteryResults | src/lib/parser.js:4-71 | the result has the scan's game, the date and time above, and `raw` equal to the input; the Costa Rica scanner is used exactly for the Costa Rica game, the generic one otherwise (null included); there are never more than three numbers |
| Regex.Spans | src/lib/parser.js:106 | the successive matches of a global expression are matches, within the text, in order and non-overlapping |
| Regex.SpansComplete | src/lib/parser.js:106 | no match is skipped: no position before the first span, between two spans, or from the last span to the end starts a match; there is no span exactly when nothing matches |
| Regex.MatchAll | src/lib/parser.js:130 | `match(/…/g) \|\| []` gives one string per match, each the text the match covers |
| Regex.ReplaceAll | src/lib/parser.js:125-127 | global replacement keeps the text outside the successive matches, in order, and puts one space for each match; it never lengthens the text and leaves a text without a match unchanged |
| Regex.DateLineAt | src/lib/parser.js:78 | a date-line match at a position ends after it, within the text |
| Regex.DateIsDateLine | src/lib/parser.js:126 | wherever the date expression matches, the date-line expression used for cleaning matches as well |
| Regex.PhoneAt | src/lib/parser.js:127 | a phone match at a position ends after it, within the text |
| Regex.PhoneMatchShape | src/lib/parser.js:127 | the phone expression matches from one position to another exactly when the text between is four digits, a non-empty run of white space holding at most one hyphen, and four digits |
| Regex.TwoDigitMatch | src/lib/parser.js:130 | a `\b\d{2}\b` match is two digits with a word boundary on each side |
| Regex.PrizeMatch | src/lib/parser.js:92 | a `\b\d{2,3}\b` match is two or three digits with a word boundary on each side |
| Parser.TwoDigitTokens | src/lib/parser.js:125-130 | every token found in the cleaned text is two digits |
| Parser.GenericNumbers | src/lib/parser.js:123-137 | the last three tokens when there are more than three, otherwise all of them, in order; each is two digits |
| Parser.FindLine | src/lib/parser.js:79-81 | `findIndex(l => l.includes(key))`: the first line holding the key, or -1 exactly when no line holds it |
| Parser.PrimaryAnchor | src/lib/parser.js:83 | the `DIARIA` line when there is one, otherwise the `TICA` line |
| Parser.LinePrize | src/lib/parser.js:92-95 | the prize of a line is two digits |
| Parser.LinePrizeLeftmost | src/lib/parser.js:92-95 | a line has no prize exactly when it has no `\b\d{2,3}\b` token; otherwise the prize is the last two characters of the leftmost token |
| Parser.LineTokens | src/lib/parser.js:105-110 | a date line gives no tokens; any other line gives one token per `\b\d{2,3}\b` match, in order, each the last two characters of the match and two digits |
| Parser.PrimaryPrize | src/lib/parser.js:89-98 | the prize of a line range is two digits, and it is absent exactly when no line of the range is a non-date line with a token |
| Parser.PrimaryPrizeFound | src/lib/parser.js:89-98 | a primary prize is the token of the first line of the range that is not a date line and holds a token; every earlier line of the range is skipped |
| Parser.WindowPrize | src/lib/parser.js:88-99 | no anchor means no prize, and a prize is two digits |
| Parser.WindowPrizeFound | src/lib/parser.js:83-99 | a primary prize implies an anchor, which is the `DIARIA` line when there is one; the prize is the one searched in `[max(0, a - 3), min(n, a + 10))` |
| Parser.ScanPrimary | src/lib/parser.js:88-99 | the windowed loop with `continue` and `break` computes `WindowPrize` |
| Parser.Take2 | src/lib/parser.js:108 | at most two elements, a prefix of the input; no duplicate is removed |
| Parser.Take2Stable | src/lib/parser.js:108-112 | once two are collected, later tokens change nothing |
| Parser.TokensInShape | src/lib/parser.js:103-113 | every token collected from a line range is two digits |
| Parser.MonazosShape | src/lib/parser.js:102-114 | at most two monazos, each two digits; none without a `MONAZOS` line; fewer than two when the later lines hold fewer than two tokens |
| Parser.MonazosFound | src/lib/parser.js:102-114 | two monazos are the first two tokens of the lines after the first `MONAZOS` line, in order and with duplicates kept |
| Parser.PushTokens | src/lib/parser.js:107-111 | the inner loop pushes cut tokens while fewer than two are held |
| Parser.MonazoLine | src/lib/parser.js:104-111 | a date line is skipped; the tokens of any other line are pushed while fewer than two are held |
| Parser.MonazoStep | src/lib/parser.js:103-113 | after one more line, the collection is either still below two and equal to the tokens so far, or already the first two tokens of all the lines |
| Parser.MonazosSettled | src/lib/parser.js:112 | after two tokens by a line, the later lines do not change the first two, which justifies the `break` |
| Parser.CollectMonazos | src/lib/parser.js:103-113 | the monazo loop with its early exit gives the first two tokens of the lines from the start line on |
| Parser.ScanMonazos | src/lib/parser.js:102-114 | section 2 computes `Monazos` |
| Parser.ParseCostaRicaNumbers | src/lib/parser.js:77-117 | the scanner returns `[primary] + monazos` when both are complete and `[]` otherwise |
| Parser.CostaRicaShape | src/lib/parser.js:116 | the result is `[]` or exactly three two-digit strings |
| Parser.CostaRicaEmpty | src/lib/parser.js:83-116 | the result is `[]` when no line holds `DIARIA` or `TICA`, when no line holds `MONAZOS`, or when fewer than two tokens follow `MONAZOS` |
| Parser.CostaRicaFull | src/lib/parser.js:116 | a non-empty result is, in this order, the primary prize of the anchor window and then the two monazos |
| Text.NatToStringValue | src/lib/parser.js:49 | `toString()` of a number is a digit string that reads back as that number |
| Text.NatToStringDigits | src/lib/parser.js:49 | the numeral is non-empty, all digits, and has no leading zero |
| Text.NatToString2026 | src/lib/parser.js:49 | the numeral of the current year 2026 is `"2026"` |
| Florida.Scores | src/scrapers/florida.js:69 | the score texts trimmed with the empty ones dropped: never more of them, each non-empty and already trimmed |
| Florida.ScoresAllKept | src/scrapers/florida.js:69 | when no score trims to empty, every score is kept, trimmed and in order |
| Florida.ScoresAppend | src/scrapers/florida.js:69 | the kept scores of two runs of elements are those of the first followed by those of the second |
| Florida.ScoresSingle | src/scrapers/florida.js:69 | one score is kept, trimmed, exactly when it is not blank |
| Florida.FirstAcceptedFrom | src/scrapers/florida.js:59-80 | the first accepted block from a position, or -1 exactly when there is none |
| Florida.FirstAccepted | src/scrapers/florida.js:57-81 | the callback's result is null exactly when no block is accepted; otherwise the first accepted block's trimmed title and first three scores, with `Florida` and `Noche` in the title |
| Florida.SelectBlock | src/scrapers/florida.js:57-81 | the loop with `continue` and early `return` computes `FirstAccepted` |
| Florida.ObserveThreeNumbers | src/scrapers/florida.js:71-75 | whatever the callback yields carries three numbers |
| Florida.AttemptStepShape | src/scrapers/florida.js:25-113 | an attempt starts with its own query and makes no other query and no sleep; whatever it inserts is the row of the block found |
| Florida.AttemptStepOutcome | src/scrapers/florida.js:34-37 | an attempt ends the hunt exactly when the row is stored or the insert succeeds; a stored row gives "already stored", and a successful insert gives "saved" |
| Florida.HuntUnfold | src/scrapers/florida.js:22-119 | an attempt that stops gives its own events; one that goes on is followed by its pause and the rest of the hunt |
| Florida.RunAttempt | src/scrapers/florida.js:25-113 | the body of one attempt performs the events `AttemptStep` gives and stops or goes on as it says |
| Florida.ScrapeFlorida | src/scrapers/florida.js:22-121 | the attempt loop with its early returns and sleeps performs the trace of `Hunt` and ends as `Hunt` says |
| Florida.StepThenRest | src/scrapers/florida.js:115-118 | an attempt, its pause and the rest: one more query, numbered with the attempt, and one more sleep exactly when a pause follows |
| Florida.HuntStepCounts | src/scrapers/florida.js:22-118 | the query numbers and the query and sleep counts of the hunt, one attempt at a time |
| Florida.HuntQueries | src/scrapers/florida.js:17-22 | the queries are numbered consecutively from the first attempt; there is at least one, and never more than the attempts left (15 in all) |
| Florida.HuntSleeps | src/scrapers/florida.js:115-118 | there is one sleep fewer than there are queries |
| Florida.HuntOutcome | src/scrapers/florida.js:34-37 | the hunt ends without a saved row exactly when every attempt fails; it stops as "already stored" or "saved" only at an attempt where that happened, with every earlier attempt failing |
| Florida.HuntExhaustedQueries | src/scrapers/florida.js:22 | when every remaining attempt goes on, each makes exactly one query |
| Florida.AllFailing | src/scrapers/florida.js:115-121 | an always-failing hunt ends without a saved row after exactly 15 queries and 14 sleeps |
| Florida.HuntEnds | src/scrapers/florida.js:34-37 | after "already stored" the last event is that attempt's query, so nothing was launched or inserted; after "saved" the trace ends with the insert and two closes, so nothing follows |
| Florida.HuntRows | src/scrapers/florida.js:87-97 | every row inserted during the hunt is a USA row for the date, at 9:50 PM, with id `usa-fl-noche-<date>` and three numbers |
| Florida.FloridaRows | src/scrapers/florida.js:87-97 | every row `scrapeFlorida` inserts has that shape |
| Panama.FirstYieldingFrom | src/scrapers/panama.js:65-83 | the first board from a position whose label matches and that has at least three prizes, or -1 exactly when there is none |
| Panama.FirstMatching | src/scrapers/panama.js:59-85 | the callback's result is null exactly when no board qualifies; otherwise it is `3:30 PM` and the first three trimmed prizes of the first qualifying board (a matching board with fewer prizes is passed over) |
| Panama.CollectPrizes | src/scrapers/panama.js:72-74 | the `forEach`/`push` keeps every prize, trimmed and in order |
| Panama.SelectContainer | src/scrapers/panama.js:59-85 | the loop with `continue` and early `return` computes `FirstMatching` |
| Panama.LabelSubsumes | src/scrapers/panama.js:71 | the day test is by substring: a label that passes for day `d2` passes for every day whose numeral occurs in that of `d2` |
| Panama.TwentyFirstPassesForFirst | src/scrapers/panama.js:71 | a label accepted for the 21st is also accepted for the 1st and the 2nd |
| Panama.DayInsideYear | src/scrapers/panama.js:71 | for a day whose numeral occurs in the year's, the day is not checked at all |
| Panama.DaysInside2026 | src/scrapers/panama.js:71 | in 2026 the 2nd, the 20th and the 26th are such days |
| Panama.ScrapePanama | src/scrapers/panama.js:22-113 | the existence check with early return, the page and at most one insert perform the trace and the outcome of `PanamaRun` |
| Panama.SingleShot | src/scrapers/panama.js:22-32 | one query and no sleep, so no retry; only the query when the day is stored; one insert exactly when nothing was stored and the page gave a result |
| Panama.PanamaOutcome | src/scrapers/panama.js:87-113 | a row is saved exactly when none was stored, the page gave a result and the insert went through; an insert error or page failure ends the check without one |
| Panama.PanamaRowShape | src/scrapers/panama.js:87-101 | the inserted row is a Panama row for the date, at 3:30 PM, with id `lnb-pa-<date>` and three numbers |
| ResourceBlocker.Decide | src/utils/resource-blocker.js:5-34 | a request is aborted exactly when its lower-cased URL holds a listed host, or its type is `image`, `media` or `font` |
| ResourceBlocker.BlockedHostAborts | src/utils/resource-blocker.js:24-30 | a URL holding a listed host, in any letter case, is aborted whatever its type |
| ResourceBlocker.HostsLowerCase | src/utils/resource-blocker.js:10-20 | the listed hosts are lower case, so comparing them with the lower-cased URL loses nothing |
| ResourceBlocker.HeavyTypesAbort | src/utils/resource-blocker.js:22-30 | images, media and fonts are always aborted |
| ResourceBlocker.StylesheetKept | src/utils/resource-blocker.js:27-28 | a stylesheet is continued exactly when its URL holds no listed host |
| ResourceBlocker.OtherTypesContinue | src/utils/resource-blocker.js:33 | any other type from an unlisted host is continued |
| ResourceBlocker.CaseInsensitive | src/utils/resource-blocker.js:6 | the decision does not depend on the letter case of the URL |

## Left out

- `src/lib/ocr.js` (the OCR.space call), `src/scrapers/instagram.js` and the entry scripts under `src/` are not part of this model. OCR output is an arbitrary input string.
- Playwright is reduced to events. Stealth, `goto`, `waitForTimeout` and the page contexts are not modelled. Launching the browser and closing it are `Launch` and `Close` events, and the Florida double close on success is two `Close` events. A failure anywhere in the page evaluation is one `PageFailed` case, because a throw and a "no result yet" lead to the same next step.
- The model assumes that `chromium.launch` succeeds in both scrapers, and in Panama also `newContext`/`newPage`. Those calls sit outside `try`, and a throw from them would propagate with the browser unclosed.
- Supabase is an oracle. The existence query is the boolean `existing && existing.length > 0`, so a query that errors reads as "not stored", as in the code. The `ilike` filter is not modelled. An insert that returns an error and one that throws are one `InsertFailed` case, since both lead to the same next step.
- luxon and time zones are not modelled: `dateStr`, `dd-MM`, and the day, month and year are inputs. `new Date()` in the parser becomes two parameters.
- The real sleep is not modelled: a `Sleep(120000)` event takes its place. Console logging is left out.
- Case mapping covers ASCII letters only and leaves every other character unchanged. As a result, `HONDUREÑA` is found only when the text already has an upper-case `Ñ`.
- Strings are sequences of Unicode scalar values rather than UTF-16 code units, so characters outside the Basic Multilingual Plane count once.
- Parser.GenericNumbers: states that each returned token is two digits; that each is bounded by `\b` in the cleaned text is stated per match by `Regex.TwoDigitMatch`, not carried into this contract.
- Florida.HuntRows: states the country, date, time, id and number count of each inserted row; the `raw_ocr` text and the original title are not restated there.
- Panama.PanamaRowShape: likewise leaves the `raw_ocr` text out.
