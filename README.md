# HoNStats core in Dafny

HoNStats fetches a Heroes of Newerth player's statistics and match history from the game's
web service and prints tables in a console. This project models the part of it that
computes: the match and player records and what is read from them (`data.py`), the
per-hero summary of a player's history (`Player.playerheroes`), the average line under a
match listing (`text.py`), and the data provider (`provider.py`). The data provider puts a
retrying fetch in front of the service, keeps two SQLite tables for nicknames and hero
names, and keeps a cache directory of match histories and match records.

Layout, one module per file:

- `common.dfy` (`Common`): Python's exceptions as an `Error` value, `Result`, `Option`, `Outcome`.
- `numeric.dfy` (`Numeric`): Python's arithmetic on `int`.
  - `int(a / b)` truncates toward zero.
  - Dividing a `timedelta` by an integer rounds half to even.
  - `int(x)` of a float truncates.
- `strings.dfy` (`Strings`): `str.strip`, `int(text)`, `str(n)` and `float(text)` on decimal text.
- `json.dfy` (`Json`): the decoded JSON values the service returns.
- `players.dfy` (`Players`): `Player` and its accessors.
- `matches.dfy` (`Matches`): `EmptyMatch`, `Match`, `creatematch` and the numbers `matchesstr` prints.
- `heroes.dfy` (`HeroUsage`): `playerheroes`.
  - Specified as a pure pipeline: contributions, tally, finalisation, stable sort.
  - Implemented as loops over the matches and over the tally.
- `averages.dfy` (`Averages`): the average line.
  - The accumulator is a class whose methods change its fields in place, as `initavgdata`,
    `fillavgdata` and `finalizeavgdata` do.
  - The window loop of `matchesinfo` is a method over that class.
- `provider.dfy` (`Provider`): `DataProvider` and `HttpDataProvider`.
  - The provider is a class.
  - Its fields are the two tables (maps keyed by primary key), the cache directory (a map
    from a path to a file's content and creation time), the clock, and the service's
    coming answers (a finite tape).
  - A log of every URL requested is also a field.

Python floats are modelled as exact reals. Durations are whole seconds. A duration summed as
a `timedelta` is kept in microseconds.

## Model

| member | source | states |
|---|---|---|
| Numeric.TruncDiv | text.py:76-83 | `int(a / b)`: the quotient's magnitude is how many whole times b fits in a; it is negative only when a and b have opposite signs |
| Numeric.DivideAndRound | text.py:75 | a timedelta divided by an integer: the result is within half of b of the exact quotient; an exact tie goes to the even result |
| Numeric.Trunc | data.py:59 | `int(x)` of a float: the magnitude is the whole part of x; the sign is x's |
| Strings.StripBounds | provider.py:86 | where the kept text lies: only white space before its start and from its end on; none at its first or last character |
| Strings.Strip | provider.py:86 | `strip()`: the result is the text between those bounds, so only leading and trailing white space is removed; it has no white space at either end; it is empty exactly when the text is all white space |
| Strings.StripIdempotent | provider.py:86 | stripping twice is stripping once |
| Strings.ParseInt | provider.py:36-41 | `int(text)`: blank text raises ValueError (reading back `str(n)` and rejecting stray characters are the two lemmas below) |
| Strings.ParseIntToString | provider.py:36-39 | `int()` reads back the decimal text of every integer |
| Strings.NotAnInteger | provider.py:37-41 | text holding a character that is not white space, a digit, a sign or an underscore makes `int()` raise ValueError |
| Strings.IntToString | provider.py:121-123 | `str(n)`: decimal digits, after a minus sign exactly when n is negative |
| Strings.IntToStringInjective | provider.py:121-123 | different integers have different decimal texts |
| Strings.ParseDecimal | data.py:59 | `float(text)`: blank text raises ValueError |
| Strings.ParseDecimalOfInteger | data.py:59 | `float()` agrees with `int()` on integer text |
| Players.AccountId | data.py:51-52 | `id()`: KeyError without `account_id`, otherwise that field read as an integer |
| Players.CounterValue | data.py:62-81 | each counter accessor reads the pool's field for that counter as an integer; a missing field raises KeyError |
| Players.Rating | data.py:57-60 | `rating()`: the pool's team rating (the public skill for the public pool) read as a float and truncated; a missing field raises KeyError; a field `float()` rejects raises its error |
| Players.CounterKeyInjective | data.py:62-81 | no two (pool, counter) pairs read the same field |
| Players.RatingOfIntegerText | data.py:57-60 | a rating stored as integer text is returned unchanged |
| Matches.CreateMatch | data.py:194-198 | a Match exactly for non-empty data, holding that data; the EmptyMatch sentinel otherwise |
| Matches.GameType | data.py:216-225 | "AP" when the ap flag is positive, "AR" when only ar is, "SD" otherwise; "NA" for a Match over empty data; "" for the sentinel |
| Matches.TeamNumber | data.py:228-231 | no team for no name or an empty one; team 1 exactly for "legion"; team 2 for any other name |
| Matches.Roster | data.py:227-231 | the dict is keyed by account id; it holds only rows of the team; every such row's id is present |
| Matches.RosterKeepsLast | data.py:230-231 | a repeated account keeps its last row on the team, as the dict comprehension stores it last |
| Matches.Players | data.py:227-231 | `players(team)`: none from the sentinel; on a match, every row of the selected team has its account present, and each account maps to its last row on the team |
| Matches.TeamsSplit | data.py:227-231 | with unique ids: the legion and hellbourne maps are disjoint and agree with the map of all players; when every row is on team 1 or 2 they cover it |
| Matches.SidesDisjoint | data.py:229-230 | team 1 and team 2 share no account |
| Matches.SidesCover | data.py:229-231 | when every row is on team 1 or 2, all players are the union of the two teams |
| Matches.FirstIndex | data.py:233-238 | the index of the first row of the account; None exactly when no row has it |
| Matches.RowFor | data.py:233-238 | the account's first row; None from the sentinel or when no row has the account |
| Matches.PlayerMatchStats | data.py:233-238 | the scan returns the first row of the account, or None |
| Matches.PlayerStat | data.py:240-242 | 0 from the sentinel; on a Match, TypeError exactly when the account has no row, otherwise the field of its first row |
| Matches.Mid | data.py:244-245 | the summary's match id; 0 from the sentinel |
| Matches.GameDuration | data.py:247-248 | the summary's playing time in seconds; 0 from the sentinel |
| Matches.EmptyMatchInert | data.py:152-169 | the sentinel answers "" for the game type, no players, no row, 0 for each stat, id and duration |
| Matches.GoldPerMinute | data.py:269 | gold per minute truncated toward zero; a zero duration raises ZeroDivisionError; the result is zero or has the sign of gold divided by the duration, so non-negative for non-negative gold |
| Matches.MatchLineOf | data.py:254-269 | the row lookup fails first (TypeError), then a zero duration (ZeroDivisionError); on success every number `matchesstr` prints, taken from the account's row |
| HeroUsage.ContributionOf | data.py:88-110 | what one match adds to the player's hero entry: the row's counters and the match duration; all zeros (hero 0) from the sentinel; TypeError when the account has no row |
| HeroUsage.ContributionsOf | data.py:87-110 | all matches' contributions in order; Ok exactly when every match has one; otherwise TypeError |
| HeroUsage.Step | data.py:90-110 | one match's update keeps the tally well formed; a hero seen first gets a new entry at the end of the order; only that hero's entry changes |
| HeroUsage.TallyOf | data.py:85-110 | the tally after every match is well formed: the order lists each hero once, and each entry carries its own id and a positive use count |
| HeroUsage.TallyCounts | data.py:102-110 | each counter of a hero's entry is the sum of that hero's contributions |
| HeroUsage.TallyMembers | data.py:90-101 | a hero has an entry exactly when some match was played with it |
| HeroUsage.TallySums | data.py:90-110 | membership and counter sums together; a hero without an entry sums to zero |
| HeroUsage.UseStep | data.py:102 | each match raises the total use by exactly one |
| HeroUsage.TallyUseTotal | data.py:102 | the use counts of all entries add up to the number of matches |
| HeroUsage.Percent | data.py:115 | the share of matches in percent, truncated: 0 <= p and p * total <= 100 * use < (p + 1) * total |
| HeroUsage.PerUse | data.py:117-120 | a per-use rate times the use count gives back the sum |
| HeroUsage.KillsPerDeath | data.py:116 | kills over deaths when there are deaths, the kills otherwise |
| HeroUsage.Finalized | data.py:113-121 | ZeroDivisionError exactly when there are no matches, uses or playing time; otherwise the counters are kept and perc, kdr, kpg, dpg, apg, wpg and gpm meet their defining relations; gpm is the value `GoldPerMinute` gives for the gold and playing time, so it is zero or carries the sign of their quotient |
| HeroUsage.FinalizeEach | data.py:113-121 | the second pass over the entries in the tally's order; Ok exactly when every entry finalises; otherwise ZeroDivisionError |
| HeroUsage.Insert | data.py:122 | inserting adds exactly one element and keeps all the others |
| HeroUsage.SortStats | data.py:122 | the sort is a permutation |
| HeroUsage.InsertSorted | data.py:122 | inserting into a sorted sequence keeps it sorted |
| HeroUsage.SortStatsSorted | data.py:122 | the result is ordered by the field, ascending or (for "desc") descending |
| HeroUsage.WithKeyInsert | data.py:122 | inserting keeps the relative order of entries with equal keys |
| HeroUsage.SortStatsStable | data.py:122 | the sort is stable: entries with equal keys keep their order |
| HeroUsage.UseSumSorted | data.py:122 | sorting keeps the total use |
| HeroUsage.SortStatsDistinct | data.py:122 | sorting keeps hero ids distinct |
| HeroUsage.PlayerHeroesSpec | data.py:83-123 | TypeError when a match lacks the player; otherwise the only error is ZeroDivisionError |
| HeroUsage.HeroesUseTotal | data.py:102-122 | the use counts of the result add up to the number of matches |
| HeroUsage.HeroesCounters | data.py:102-110 | every entry is a hero that was played; each of its counters is that hero's sum over the matches |
| HeroUsage.HeroesCoverPlayed | data.py:87-101 | one entry per hero, and every hero played has an entry |
| HeroUsage.HeroesOrdered | data.py:122 | the result is sorted by the field; entries with equal keys keep their first-seen order |
| HeroUsage.HeroesPercentTotal | data.py:115 | the truncated percentages of all entries add up to at most 100 |
| HeroUsage.NoPlayingTimeRaises | data.py:121 | a hero whose matches add no playing time makes the call raise ZeroDivisionError |
| HeroUsage.MissingMatchRaises | data.py:88-121 | a history whose only match has no data raises ZeroDivisionError |
| HeroUsage.StepInPlace | data.py:90-110 | the source's in-place dict update (insert on first sight, then add to each field) is the tally step |
| HeroUsage.SumMatches | data.py:87-110 | the accumulate loop gives the specified tally, or the first failing match's error |
| HeroUsage.FinalizeEntries | data.py:113-121 | the finalise loop over the table gives the specified rows |
| HeroUsage.PlayerHeroes | data.py:83-123 | the whole method: the player's id error, or the pipeline's result |
| Averages.TotalAppend | text.py:61-71 | filling in two runs of lines adds their totals |
| Averages.TotalWholeSeconds | text.py:62 | the summed duration is a whole number of seconds |
| Averages.TotalOrderFree | text.py:61-71 | the totals do not depend on the order of the lines |
| Averages.TotalWithin | text.py:61-71 | each summed field lies between the line count times the smallest and times the largest amount |
| Averages.AverageOf | text.py:73-84 | ZeroDivisionError exactly for an empty window or zero averaged deaths; gd within half a unit of the mean; every counter the truncated mean; kdr is averaged kills over averaged deaths |
| Averages.MeanWithin | text.py:76-83 | when every line adds between lo and hi, the averaged counter lies between lo and hi |
| Averages.KdrFromAverages | text.py:76-79 | kdr comes from the averaged counts: kills 2, 4, 6 and deaths 1, 2, 3 give 4, 2 and kdr 2.0 |
| Averages.WiderWindowLowersMean | text.py:76 | dividing a non-negative sum by a wider window never raises the average |
| Averages.AvgData.constructor | text.py:43-59 | every number zero, the texts the placeholders |
| Averages.AvgData.Fill | text.py:61-71 | the sums become the old sums plus the line's numbers; the other fields are untouched |
| Averages.AvgData.Finalize | text.py:73-84 | succeeds exactly when the specified average does, and then holds it; a zero window changes nothing; zero averaged deaths raise after gd, k, d and a were replaced |
| Averages.Window | text.py:91 | with a non-zero limit, the smaller of the limit and the history's length (at most both, equal to one); the whole history when no limit (or 0) is given |
| Averages.WindowsAsWritten | text.py:88-91 | the windows of several players as written: the first is the first player's own window |
| Averages.WindowsAsWrittenShrink | text.py:88-91 | as written, after a non-empty window no later window is wider |
| Averages.WindowLeaksAsWritten | text.py:88-91 | histories of 2 and then 5 matches without a limit give windows 2, 2 as written, against 2, 5 intended |
| Averages.WindowsPerPlayer | text.py:91 | each player's window is the window of the given limit and that player's own history |
| Averages.LinesOf | text.py:94-101 | the lines of the window's matches; matches without data are skipped; Ok exactly when every record's line is; the match at position i, when it has data, gives the line at the position equal to the number of records before it |
| Averages.LinesErrorPersists | text.py:94-101 | once a line fails, the rest of the window cannot recover |
| Averages.WindowAverage | text.py:86-103 | the window loop fills exactly the window's lines and finalises by the window's size; the placeholders stay |
| Provider.NickOrAccountId | provider.py:35-41 | `/accountid/` and the text when `int()` reads it, `/nickname/` and the text otherwise |
| Provider.AccountIdPath | provider.py:35-39 | integer text selects by account id |
| Provider.NicknamePath | provider.py:35-41 | text that is not an integer selects by nickname |
| Provider.Serve | provider.py:91-101 | fetch against the coming answers: it uses up at most all of them; it runs out only when all are 429 |
| Provider.ServeFirstAnswer | provider.py:94-101 | the result is the first answer that is not 429, after exactly that many requests |
| Provider.ServeSkipsOnly429 | provider.py:96-99 | every answer retried was a 429; the last one used is the result |
| Provider.Bucket | provider.py:121 | the bucket is the first four characters of the match id (all of them when shorter) |
| Provider.MatchPath | provider.py:120-123 | the match directory, the bucket, and the id's text with `.gz` |
| Provider.MatchPathInjective | provider.py:120-123 | different matches never share a cache file |
| Provider.HistoryPath | provider.py:104-105 | the player directory, and a name that begins with the account id's text and ends with the kind's suffix |
| Provider.HistoryPathInjective | provider.py:104-105 | different accounts or kinds of history never share a file |
| Provider.Fresh | provider.py:106 | a file is fresh while less than the cache time has passed since it was created |
| Provider.FreshFor300Seconds | provider.py:106 | a history file is used for the 300 seconds after it was written |
| Provider.Assemble | provider.py:128-132 | the stored record is the summary list followed by the settings, items and player statistics; AttributeError for a summary that is not a list |
| Provider.DisplayName | provider.py:86 | the stripped `disp_name`; AttributeError when it is not a string |
| Provider.AccountOf | provider.py:68-71 | `int(data['account_id'])`: the key's error, or the field read as an integer |
| Provider.NewAccount | provider.py:68-71 | the fetched account id; IntegrityError when the table already has that id |
| Provider.Resolve | provider.py:61-71 | a known nickname gives its stored id without a request; an unknown one gives NewAccount's result for the fetched answer, after the requests fetch made, and is stored on success; nicknames stay unique |
| Provider.KnownNickUnique | provider.py:62-67 | with unique nicknames the stored id is the only one |
| Provider.HttpDataProvider.constructor | provider.py:45-56 | the provider over existing tables and cache with an empty request log |
| Provider.HttpDataProvider.Fetch | provider.py:91-101 | the result, the remaining answers and the URLs requested are exactly what the retry rule gives |
| Provider.HttpDataProvider.Nick2Id | provider.py:61-71 | the result, the table and the requests are those of the resolution; nicknames stay unique |
| Provider.HttpDataProvider.Id2Nick | provider.py:73-74 | returns its argument |
| Provider.HttpDataProvider.HeroId2Name | provider.py:76-89 | a built-in nickname first, then the table, each without a request; otherwise fetched, stripped and stored |
| Provider.HttpDataProvider.CachedHistory | provider.py:104-114 | a fresh file is read back without a request; otherwise the history is fetched and the file rewritten |
| Provider.HttpDataProvider.FetchMatches | provider.py:103-114 | the nick is resolved first, and its failure stops everything; then the cache step for the resolved account, with the full state after it |
| Provider.HttpDataProvider.FetchMatchData | provider.py:116-135 | a cached record is returned whatever its age; otherwise summary then full statistics are fetched, assembled, and written only on success |
| Provider.MatchDataTwice | provider.py:124-135 | the log after the first read is the log before it plus the summary request and, when that one succeeds, the full request, each with its 429 retries (none for a cached match); a second read of a match that was read gives the same record and adds no request |
| Provider.HeroNameTwice | provider.py:76-89 | the log after the first lookup is the log before it plus the hero request with its 429 retries, or nothing for a built-in or cached hero; after a successful lookup, a second one gives the same name and adds no request |
| Provider.NickTwice | provider.py:61-71 | the log after the first resolution is the log before it plus the requests that resolution makes; after a successful resolution, a second one gives the same id and adds no request |

## Left out

- HeroUsage.Percent: exact arithmetic. The source computes `use / n * 100` in floats, which
  can land just below an integer: 29 of 100 matches print 28. The model gives 29.
- HeroUsage.PerUse, HeroUsage.KillsPerDeath: exact reals, so float rounding of the rates is not modelled.
- Matches.GoldPerMinute: computed as `60 * gold / seconds` in exact arithmetic. The source
  divides by `seconds / 60` in floats; rounding can move a result that is exactly an
  integer by one.
- Averages.AverageOf: the duration stays a number of microseconds. Its rendering, the first
  four characters of the timedelta's text, is not modelled. kdr is an exact quotient.
- Formatting and printing are not modelled: the `*str` methods, headers, `gamedatestr` and
  dates (they need the clock and time zone), and the hero name `matchesstr` looks up.
- The glue between `text.py` and the provider does not match `data.py` and `provider.py`.
  - It calls `creatematch` with two arguments.
  - It calls `Match.matchesdata` and `dp.matches`, which do not exist.
  - It passes a list of ids to `fetchmatchdata`.
  - The model follows the evident intent: the window loop folds the numbers `matchesstr`
    prints, and `playerheroes` takes the sequence of match records of the history.
- HeroUsage.PlayerHeroesSpec: a history holding the same match twice counts it twice. The
  source collects the records in a dict keyed by match id, which would count it once.
- HeroUsage.SortStats: sort keys are the entry's fields. A `sortby` naming no field raises
  KeyError in the source and cannot be expressed here.
- The service is a finite tape of answers, one per request.
  - When the tape runs out while the service keeps answering 429, the result is NoResponse.
  - The 0.1 s pause between retries is not modelled.
- Provider.Serve, Provider.HttpDataProvider.Fetch: the retries are not bounded. The source retries a 429 by calling `fetch`
  again from inside its exception handler, so every retry deepens the call stack. After
  roughly a thousand 429s in a row (Python's default recursion limit, less the frames of
  `urlopen`) it raises RecursionError. The model returns the first answer that follows any
  number of 429s, because the exact depth depends on the interpreter and its settings.
- gzip, JSON text encoding, `os.makedirs` of the cache directories, and closing the database
  are not modelled. The file's creation time is the clock at the time of writing.
- The item section of a match record is carried as it is fetched. Its content is not read.
- A match record's fields are taken as already converted to integers. The KeyError,
  IndexError and ValueError a malformed record raises when `data.py` indexes it and calls
  `int()` on a field are not modelled.
- JSON numbers are integers. A fractional JSON number, read as a float, is not modelled.
- `float(text)` is modelled for decimal text without exponents, `inf` or `nan`.
  `int(text)` is modelled for ASCII digits, signs and underscores.
- `FSDataProvider` and the HTML front end (`html.py`, `honstats.py`) are not part of this model.
- `id2nick` returns its argument, as the code does. The player table is not consulted.
- `fetchmatches` passes its argument through `nick2id` even when it is a numeric account
  id. The model follows that: the id text is resolved as a nickname.

## Findings

| source | as written | input that shows it | evidently intended | confidence | as-written member | corrected member |
|---|---|---|---|---|---|---|
| text.py:91 | `limit` is overwritten with the first player's capped window, which then caps every later player's window | no limit, histories of 2 and then 5 matches: windows 2 and 2 | each player's window is that player's history capped by the given limit: 2 and 5 | medium, not executed | Averages.WindowLeaksAsWritten | Averages.WindowsPerPlayer |
