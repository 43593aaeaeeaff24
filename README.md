# Weibo scrapper core, modelled in Dafny

`WeiboScrapper` (app.py) polls one Weibo account's JSON feed and forwards new
posts to a Discord webhook. This project models the part of it that decides
things:

- **the id table** (`check_id`): a growing set of post ids. An id is recorded
  the first time it is seen, and that first sighting is reported as new;
- **the retry loop** (`get_weibo_content_loop`): up to eleven fetch attempts,
  each failure followed by a 60-second wait. Both `None` and an empty list
  count as failure;
- **the scan** (`scan`): walks the fetched list in order. It records each new
  id before posting it and pauses five seconds after every post. An item
  whose `created_at` cannot be converted makes `parse_item` raise, which ends
  the scan with that id already recorded;
- **the payload** (`parse_item`, lines 135-155): `created_at` is parsed with
  `'%a %b %d %H:%M:%S %z %Y'` under Python's strptime rules, moved to
  `Etc/GMT-8` (UTC+08:00, since POSIX zone names invert the sign) and written
  as `'%Y-%m-%dT%H:%M:%S.%fZ'`. The result goes into a one-embed message with
  fixed title, link and colour.

Modules, one per file:

| file | module | contents |
|---|---|---|
| `wrappers.dfy` | `Wrappers` | `Option` and `Result` |
| `civil.dfy` | `Civil` | proleptic Gregorian dates, day numbers, instants, adding seconds |
| `decimal.dfy` | `Decimal` | digit strings and their values |
| `created_at.dfy` | `CreatedAt` | the strptime parser and a canonical renderer |
| `timestamp.dfy` | `Timestamp` | the move to +08:00 and the output format |
| `weibo.dfy` | `Weibo` | feed items and fetch outcomes |
| `embed.dfy` | `Embed` | the webhook message |
| `effects.dfy` | `Effects` | the observable effects: fetch, sleep, insert, post |
| `retry.dfy` | `Retrying` | the retry loop, as a function and as a method |
| `scanner.dfy` | `Scanner` | the pass over a list, the scan, and the `WeiboScrapper` class |

The browser fetch is an oracle `feed: nat -> Outcome`: `feed(i)` is what the
(i+1)-th call of `get_weibo_content_once` returns. The webhook post and the
sleeps are recorded as events in a ghost log; they are not performed. The
class holds the table as `seen: set<int>`. Its invariant says:

- every post comes right after the insertion of its own id and right before
  a 5-second pause;
- no id is inserted twice.

Together these mean no id is posted twice (`Scanner.ValidLogPostsOnce`).

The timestamp carries a trailing `Z`, which claims UTC, but the wall-clock
fields are those of +08:00. `Timestamp.DiscordTimestampMeaning` states both
readings. Read at +08:00, the timestamp names the post's own instant. Read as
UTC, it names an instant eight hours later. The model keeps the code's
behaviour.

## Model

| member | source | states |
|---|---|---|
| Scanner.Record | app.py:91-102 | reports an id as new exactly when it was absent; afterwards it is present and no other id was added or removed |
| Scanner.RecordIdempotent | app.py:95-102 | checking the same id a second time reports it as old and leaves the table unchanged |
| Scanner.WeiboScrapper.constructor | app.py:34-37 | the table starts with the ids already stored; the log starts empty and the invariant holds |
| Scanner.WeiboScrapper.CheckId | app.py:91-102 | the result is true iff the id was absent; the table becomes old table plus the id; an insertion is logged only for a new id; the invariant (one insertion per id) is kept |
| Retrying.Failures | app.py:108-113 | n failed rounds are 2n events, alternating one fetch and one 60-second wait, starting with the fetch |
| Retrying.GetContentLoop | app.py:104-118 | the loop returns the same list, and produces the same fetch/wait trace, as the reference function Retry |
| Retrying.FailuresCount | app.py:108-113 | n failed rounds hold exactly n fetches and n waits |
| Retrying.RetryFromFirstSuccess | app.py:107-118 | from counter i, if attempt k is the first non-empty one, the loop returns that list after k-i failed rounds and one more fetch |
| Retrying.RetryFirstSuccess | app.py:107-110 | if attempt k+1 is the first non-empty one, there are exactly k+1 fetches and k waits, and that list is returned unchanged |
| Retrying.RetryFromExhausted | app.py:111-117 | from counter i, if no attempt succeeds, the loop gives up with None after the remaining 11-i failed rounds |
| Retrying.RetryExhausted | app.py:111-117 | if every fetch returns None or an empty list, there are exactly 11 fetches and 11 waits of 60 s, then None |
| Retrying.RetryFromOutcome | app.py:107-118 | from counter i, the result is None iff all remaining attempts fail; a returned list is never empty |
| Retrying.RetryOutcome | app.py:109-118 | the loop returns None iff all 11 attempts fail; a returned list is never empty |
| Retrying.RetryFromTruthiness | app.py:109 | from counter i, two fetchers that agree on which outcomes are truthy, and on the truthy lists, give the same run |
| Retrying.RetryOnlySeesTruthiness | app.py:109 | the loop depends only on each outcome's truthiness and on the non-empty lists |
| Retrying.EmptyListIsFailure | app.py:109 | an empty list in place of any outcome changes the run exactly as None would |
| Retrying.FourthAttemptScenario | app.py:107-118 | three failures, then a list: that list is returned after 4 fetches and 3 waits |
| Scanner.FreshIsNovel | app.py:123-124 | the items the front-to-back walk finds new are exactly those whose id is neither in the table nor on an earlier item, in fetch order |
| Scanner.FreshAppend | app.py:123-124 | appending an item to the list adds it to the new items exactly when its id is neither in the table nor on the list already |
| Scanner.FreshIds | app.py:123-124 | the new items carry exactly the list's ids that are not in the table, each once |
| Scanner.FreshAllSeen | app.py:124 | if the table already holds every id of the list, nothing is new |
| Scanner.ProcessNotifiesFresh | app.py:122-126 | when every new item converts: each is inserted, posted and followed by a 5 s pause, in fetch order; the table ends as old table plus every id of the list |
| Scanner.ProcessHaltsAt | app.py:124-125 | when new item k is the first that does not convert: the items before it are notified, its id is recorded, and the pass stops there |
| Scanner.ProcessHaltsIff | app.py:124-125 | the pass runs to the end iff every new item converts |
| Scanner.ProcessRecords | app.py:98-100 | the table only gains ids of the list; a pass that stops records the offending id and its insertion is the last effect, with no post |
| Scanner.ProcessAllSeen | app.py:124 | a list whose ids are all recorded produces no effect |
| Scanner.ProcessReplay | app.py:122-126 | the same list run again over the resulting table notifies nothing and changes nothing |
| Scanner.OneOfTwoScenario | app.py:122-126 | for items 101 and 102 with 101 already recorded, only 102 is recorded, posted and followed by a pause |
| Scanner.ScanWhenFetchFails | app.py:121-129 | if every fetch fails, the scan makes 11 fetches and 11 waits, changes no table entry and posts nothing |
| Scanner.ScanWithoutContent | app.py:121-129 | if the retry loop returns None, the table is unchanged and the only effects are fetches and waits |
| Scanner.ScanNotifiesFresh | app.py:121-126 | after a successful fetch in which every new item converts, exactly the new items are posted in order, and the table ends as old table plus every fetched id |
| Scanner.ScanAbortedRecords | app.py:124-125 | an aborted scan leaves the offending id recorded but unposted, so the same fetch cannot abort on it again |
| Scanner.ScanReplay | app.py:121-126 | a completed scan replayed over the same fetch results notifies nothing and leaves the table unchanged |
| Scanner.RetryFromQuiet | app.py:104-118 | the retry loop's effects are only fetches and waits |
| Scanner.ValidLogPost | app.py:124-126 | posting the id just inserted, then pausing, keeps the log invariant |
| Scanner.ValidLogPostsOnce | app.py:98-100 | in a log that keeps the invariant, no id is posted twice: each post sits right after its own id's single insertion |
| Scanner.ValidLogInsert | app.py:96-99 | inserting an absent id keeps the log invariant |
| Scanner.ValidLogQuiet | app.py:121 | appending only fetches and waits keeps the log invariant |
| Scanner.WeiboScrapper.Scan | app.py:120-129 | the new table, the appended effects and the outcome are exactly those of ScanSpec, and the invariant is kept |
| Scanner.WeiboScrapper.Dispatch | app.py:123-126 | the `for` loop's table, effects and early stop are exactly those of Process over the fetched list, and the invariant is kept |
| CreatedAt.Find | app.py:139 | a name is found at position i only if the table holds it there and at no earlier position; it is not found only if it is absent |
| CreatedAt.ParseCreatedAt | app.py:139 | every value strptime accepts is a valid date-time in years 1..9999 with an offset under one day |
| CreatedAt.ParseRender | app.py:139 | strptime reads the canonical rendering of any valid zoned time (any weekday name, any offset including seconds) back to the same fields and offset |
| CreatedAt.OffsetAtFront | app.py:139 | the %z field reads back a rendered offset exactly, with or without a seconds part |
| CreatedAt.ClockAtFront | app.py:139 | `%H:%M:%S` reads back zero-padded hours, minutes and seconds exactly |
| Decimal.ValueOfDigits | app.py:145 | a number written zero-padded in a width it fits reads back as itself |
| Decimal.DigitsOfValue | app.py:145 | a digit string is the zero-padded rendering of its own value |
| Civil.DaysInMonth | app.py:139 | every month has 28 to 31 days |
| Civil.DaysInMonthLeap | app.py:139 | a month has 29 days exactly when it is February of a leap year; other months have the same length every year |
| Civil.NextDayNumber | app.py:143 | moving to the next day, across month and year ends, adds one to the day number |
| Civil.PrevDayNumber | app.py:143 | moving to the previous day subtracts one from the day number |
| Civil.ShiftDaysNumber | app.py:143 | shifting a date by k days moves its day number by exactly k |
| Civil.AddSecondsInstant | app.py:143 | adding delta seconds to a date-time moves the instant it denotes by exactly delta |
| Civil.DayNumberInjective | app.py:143 | distinct valid dates have distinct day numbers |
| Civil.InstantInjective | app.py:143 | at a fixed offset, the instant determines the civil fields |
| Timestamp.ToTarget | app.py:142-143 | a successful conversion yields a valid date-time |
| Timestamp.ToTargetKeepsInstant | app.py:142-143 | the converted fields, read at +08:00, denote the same instant as created_at at its own offset |
| Timestamp.ToTargetUnique | app.py:142-143 | whenever the UTC reading is in range, any valid date-time denoting the instant at +08:00 is what the conversion returns |
| Timestamp.FormatTimestamp | app.py:145 | the output has 27 characters and ends in `.000000Z` |
| Timestamp.FormatTimestampFields | app.py:145 | the output's fields are the zero-padded year, month, day, hour, minute and second, with fixed separators |
| Timestamp.ParseFormat | app.py:145 | reading the formatted timestamp back gives the same date-time |
| Timestamp.FormatParse | app.py:145 | every string that reads back as a timestamp is the formatting of what it reads as |
| Timestamp.ParseTimestamp | app.py:145 | anything read back as a timestamp is a valid date-time |
| Timestamp.DiscordTimestampMeaning | app.py:139-145 | a timestamp is produced iff created_at parses and converts in range. At +08:00 it names created_at's instant; read as UTC, as its `Z` claims, it names an instant 8 hours later |
| Timestamp.ExampleConversion | app.py:139-145 | `Mon Jan 02 15:04:05 +0000 2024` becomes `2024-01-02T23:04:05.000000Z` |
| Embed.BuildMessageContents | app.py:139-155 | a message is built iff the timestamp converts. It has one embed with the fixed title, url and colour 16738740, `text_raw` as description, and a timestamp of created_at's instant at +08:00 |
| Weibo.Ids | app.py:94 | every item's id is among the ids of its list |
| Weibo.IdsAppend | app.py:94 | the ids of a list with one more item are the old ids plus that item's id |
| Effects.OccurrencesAppend | app.py:112 | event counts add up over concatenated traces |

## Left out

- Browser handling, which is I/O: creating the Selenium driver, the liveness check and restart, navigation, the 10-second settle sleep and the `<pre>` lookup (app.py:45-53, 70-87). A fetch is an abstract outcome: unavailable, or a list of items.
- JSON decoding and the `['data']['list']` lookup (app.py:88-89). A decode or key error here is outside the `try` and escapes the scan; the model has no such path.
- SQLite mechanics, which are storage: connection, cursor, commit and durability (app.py:34-37, 95-99). The table is a set; ids stored by earlier runs come in through the constructor's parameter.
- `requests.post` and its status code, which are network I/O (app.py:156-157). A post is a logged event. A post that raises, which would also end the scan, is not modelled.
- `send_status` (app.py:159-186): random choice, host name and wall clock, with nothing deterministic to state.
- The scheduler loop in `start` (app.py:56-67), which times calls to `scan` and to `send_status`: each runs once at once and then on a schedule, every 10 minutes and every hour. The loop runs until a call raises. A `ValueError` or `OverflowError` from `parse_item`, which the model reports as an `Aborted` scan, ends the process. An error in the first scan (app.py:58) propagates straight out of `start`. An error in a later scan propagates through `schedule.run_pending` (app.py:66). The model describes one scan at a time and does not capture that later scans then never run.
- Environment and config-file loading (app.py:18-24, 38-42), and the loop's `print` calls. Sleeps are recorded as events, not performed.
- Other fields of a feed item besides `id`, `text_raw` and `created_at`.
- Scanner.Record: ids are unbounded integers. SQLite's `INTEGER PRIMARY KEY` holds a signed 64-bit value, and binding an id outside [-2^63, 2^63) in the SELECT (app.py:95) raises `OverflowError`, which escapes the scan with nothing recorded. The model records any integer; real feed ids fit in 64 bits.
- Scanner.Record: an item without `id`, `text_raw` or `created_at` raises `KeyError` (app.py:94, 135-136) and ends the scan. Every item in the model carries all three fields.
- CreatedAt.ParseCreatedAt: rejects an offset with a fractional-seconds part (`+HH:MM:SS.ffffff`), which strptime accepts. Feed timestamps never carry one.
- CreatedAt.ParseCreatedAt: digits, white space and case-insensitive name matching are ASCII only. ASCII white space here includes U+001C..U+001F, as in Python. strptime also accepts non-ASCII Unicode digits and spaces (for example U+00A0 and U+0085), and Unicode case folding.
- CreatedAt.ParseCreatedAt: the day and month names are the English ones of the C locale. strptime uses the process locale.
- Timestamp.FormatTimestamp: always writes the year as four digits. For years below 1000, `%Y` padding depends on the platform's C library.
- Scanner.WeiboScrapper.Scan: the fetch's own delays and its driver restart are not part of the trace; only the 60-second retry waits and the 5-second post pauses are.
