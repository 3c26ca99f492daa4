# gnoticias news ingestion, modelled in Dafny

This project models the news-ingestion core of the `gnoticias` package and
proves properties of that model. The package collects Google News items
about political candidates, keeps the items whose headline names the
candidate, and stores them in sqlite tables without duplicates. A later
pass labels each stored item with a sentiment and a topic from a language
model. A run ledger records every batch run. A per-day counter tracks model
calls against a quota.

Modules, one per source file plus two shared ones:

| file | module | models |
|---|---|---|
| `text.dfy` | `Text` | the string operations the scripts use: `in`, `strip`, `rsplit`, `split`, the `" ".join(s.split())` shape of the normalisers, and `str(n)` |
| `calendar.dfy` | `Calendar` | `datetime` validation, the civil calendar, weekday and day of year, and the fixed UTC-5 shift of `normalize_to_colombia_time` |
| `feed.dfy` | `Feed` | a feed entry as a value, the decoder and MD5 services as functions, and the title split both scripts share |
| `news_db.dfy` | `NewsDb` | `db_gnoticias.py`: the four tables as maps in a `Store` class, each table change also stated as a pure function |
| `run_ledger.dfy` | `RunLedger` | `db_log_ejecucion.py`: the `log_ejecucion` table in a `Ledger` class |
| `ia_quota.dfy` | `IaQuota` | `db_log_ia.py`: the `log_IA` per-day call counter in a `QuotaLog` class |
| `daily_news.dfy` | `DailyNews` | `ex_gnoticias.py`: normalisation, the name search, entry shaping, the per-candidate fetch loop and the candidate work queue of `main` |
| `historical_news.dfy` | `HistoricalNews` | `ex_gnoticias_historico.py`: its own normaliser, the keyword filter, the day loop and `main` |
| `sentiment.dfy` | `Sentiment` | `procesar_sentimientos.py`: `get_api_key` over the key file's lines, the batch loop and `main` |

How the model is built:

- Code that only computes is modelled as functions and lemmas.
- The fetch loops, the work queue, the batch loop and the store and ledger operations are methods with loops and `modifies` clauses.
- Each such method is proved equal to a fold written as a function: `DailyRun`, `HistRun`, `Batch` or `RunCandidates`.
- Lemmas about those folds state what the scripts promise.
- External services are values passed in:
  - each feed;
  - the URL decoder and MD5, as `Feed.Services`;
  - the fuzzy name tier;
  - the language model;
  - "now" and "today".
- Storage failures that the Python code catches are a `storageError` argument. The orchestration loops pass `false`.

What the code does, in the places where one might expect otherwise:

- **Name matching.** The exact tier tests substrings of the normalised headline, not whole tokens.
  - A name of fewer than two words is `nombre_invalido`. This is checked before the particles are removed.
  - A name of two or more words that are all particles makes `partes_limpias[0]` raise IndexError. In the daily fetch, that exception abandons the rest of the feed.
  - There is no single-word rule and no per-candidate override.
  - The fuzzy tier is kept, as a function passed in.
- **Model scheduling.** There is no retry or backoff anywhere.
  - The sentiment pass calls a hard-coded model and never consults the `log_IA` counter.
  - It reads one batch of at most 250 rows, although a comment there says it fetches all. It does not stop early.
- **Historical `main`.** It does not re-raise. Its `except` logs the error, and `log_end(..., 'finished')` then always runs.
- **A missing save function.** The historical script imports `save_news_to_gnoticias`, which `db_gnoticias.py` does not define. It is modelled as an insert-if-absent into `gnoticias` with empty enrichment (`NewsDb.Store.SaveNewsToGnoticias`).

Two consequences of the code as written are proved:

- **Dangling comma in the keywords.** A keyword list that ends in a comma makes every headline relevant, because the empty keyword is in every string (`HistoricalNews.TrailingCommaMatchesEverything`).
- **Stored dates in the historical script.** Every item is stored at 19:00 of the day before the query day (`HistoricalNews.ProcessFeedEntry`, `Calendar.MidnightInColombia`).

## Model

| member | source | states |
|---|---|---|
| Text.ContainsIff | gnoticias/ex_gnoticias.py:87-96 | Python's substring test `needle in hay` holds exactly when the needle occurs at some index |
| Text.LastIndexOf | gnoticias/ex_gnoticias.py:151-155 | the index where `rsplit(" - ", 1)` cuts is an occurrence with no later occurrence; None exactly when there is none |
| Text.Strip | gnoticias/ex_gnoticias.py:151-157 | `strip()` returns a contiguous piece of its input with only whitespace cut on either side, and starts and ends with a non-space |
| Text.SplitOn | gnoticias/ex_gnoticias_historico.py:102 | `split(c)` gives at least one field, and no field contains the separator |
| Text.SplitOnJoin | gnoticias/ex_gnoticias_historico.py:102 | joining the fields of `split(c)` with `c` gives back the input |
| Text.JoinSplitOn | gnoticias/ex_gnoticias_historico.py:102 | splitting the `c`-join of fields that do not contain `c` gives those fields back |
| Text.SplitOnSeveral | gnoticias/procesar_sentimientos.py:25 | `split(c)` has a second field exactly when `c` occurs in the text |
| Text.StripKeeps | gnoticias/procesar_sentimientos.py:25 | `strip()` removes only whitespace, so a non-space character occurs in the stripped text exactly when it occurs in the text |
| Text.SplitOnTrailing | gnoticias/ex_gnoticias_historico.py:102 | a text ending in the separator splits into at least two fields, the last one empty |
| Text.Words | gnoticias/ex_gnoticias.py:47-48 | `split()` of a normalised text gives only non-empty runs of `[a-z0-9]` |
| Text.Squeeze | gnoticias/ex_gnoticias.py:47-48 | collapsing whitespace and trimming gives a normalised text with the same words |
| Text.SqueezeNormalized | gnoticias/ex_gnoticias.py:47-48 | squeezing an already normalised text changes nothing |
| Text.WordsOfJoin | gnoticias/ex_gnoticias.py:47-48 | splitting the single-space join of words gives the same words back |
| Text.JoinOfWords | gnoticias/ex_gnoticias.py:47-48 | a normalised text is the single-space join of its own words |
| Text.NatToString | gnoticias/procesar_sentimientos.py:129 | `str(n)` of a count is a non-empty string of decimal digits whose value is `n`, with a leading zero only for 0, which is "0" |
| Text.IntToString | gnoticias/ex_gnoticias_historico.py:138 | `str(n)` is the decimal numeral of `n`, after a minus sign when `n` is negative |
| Calendar.DaysInMonth | gnoticias/ex_gnoticias.py:137-146 | a month has 28 to 31 days, which bounds the day `datetime(...)` accepts |
| Calendar.CivilRoundTrip | gnoticias/ex_gnoticias_historico.py:73-75 | the day number of a valid date reads back as that year, month and day |
| Calendar.FromSecondsOfInstant | gnoticias/ex_gnoticias_historico.py:73-77 | every valid wall-clock moment reads back from its second count, field by field |
| Calendar.FromSeconds | gnoticias/ex_gnoticias_historico.py:73-77 | the wall-clock fields of a second count have hour, minute and second in range |
| Calendar.Weekday | gnoticias/ex_gnoticias_historico.py:78 | `weekday()` is between 0 (Monday) and 6 |
| Calendar.WeekdayAnchor | gnoticias/ex_gnoticias_historico.py:78 | 2024-01-01, the first day of the backfill, is a Monday (0) |
| Calendar.WeekdayNext | gnoticias/ex_gnoticias_historico.py:78 | the weekday of the next day is one more, wrapping from Sunday (6) to Monday (0) |
| Calendar.NormalizeToColombiaTime | gnoticias/ex_gnoticias_historico.py:38-43 | the result is told at UTC-5 and denotes the same instant; a naive value is read as UTC, so its wall clock moves back 5 hours |
| Calendar.MidnightInColombia | gnoticias/ex_gnoticias_historico.py:38-43 | naive midnight of a day, read as UTC, is 19:00:00 of the day before in Colombia: that day's date, that clock, that instant, and a valid `datetime` whenever its year is in range |
| Calendar.CivilFromDaysValid | gnoticias/ex_gnoticias_historico.py:73-75 | every day number reads as a valid month and day, whose day number is the same again (the other half of the civil round trip) |
| Calendar.ClockedDate | gnoticias/ex_gnoticias_historico.py:71-77 | a moment given as a day and a clock time reads back as that day's date and that clock, and denotes the same instant |
| Calendar.YearDay | gnoticias/ex_gnoticias_historico.py:79 | `tm_yday` is between 1 and 366 |
| Calendar.YearDayOfNewYear | gnoticias/ex_gnoticias_historico.py:79 | January 1st is day 1 of its year |
| Feed.SplitTitle | gnoticias/ex_gnoticias.py:151-157 | without `" - "` the title is the stripped headline of outlet "Desconocido"; otherwise headline and outlet are the stripped pieces around the last occurrence |
| Feed.SplitTitleCutsIffSeparator | gnoticias/ex_gnoticias.py:151 | the test `" - " in titulo` holds exactly when there is a last occurrence to cut at |
| Feed.OutletHasNoSeparator | gnoticias/ex_gnoticias_historico.py:47-53 | the outlet never contains `" - "` |
| NewsDb.InsertIfAbsent | gnoticias/db_gnoticias.py:47-79 | an insert that swallows integrity and storage errors keeps every row, adds the key unless the store failed, and writes the row only when the key was absent |
| NewsDb.SaveTwiceKeepsFirst | gnoticias/db_gnoticias.py:109-141 | saving the same key twice leaves the first row |
| NewsDb.MarkProcessed | gnoticias/db_gnoticias.py:82-93 | only the named flag of only that candidate is set; a field other than `ex` or `his`, or a storage error, changes nothing |
| NewsDb.ResetEx | gnoticias/db_gnoticias.py:143-152 | every candidate's `ex` is cleared and no other field changes |
| NewsDb.UpdateSentiment | gnoticias/db_gnoticias.py:224-239 | every row of the item, for any candidate, gets the sentiment, topic and analysis time; every other row is unchanged |
| NewsDb.NewestExists | gnoticias/db_gnoticias.py:213-215 | a non-empty set of pending rows has a newest one to sort first |
| NewsDb.LowestAwaiting | gnoticias/ex_gnoticias.py:322 | when some candidate has `ex` unset and a topic, one of them has the lowest id |
| NewsDb.Store.NewsExists | gnoticias/db_gnoticias.py:34-44 | true exactly when the key is in `gnoticias_ex_his` and the store did not fail |
| NewsDb.Store.NewsExistsDia | gnoticias/db_gnoticias.py:96-106 | true exactly when the key is in `gnoticias_ex` and the store did not fail |
| NewsDb.Store.NewsExistsInGnoticias | gnoticias/db_gnoticias.py:192-202 | true exactly when the key is in `gnoticias` and the store did not fail |
| NewsDb.Store.SaveNewsToDb | gnoticias/db_gnoticias.py:47-79 | `gnoticias_ex_his` becomes the insert-if-absent of the row; the other tables are unchanged |
| NewsDb.Store.SaveNewsToDbDia | gnoticias/db_gnoticias.py:109-141 | `gnoticias_ex` becomes the insert-if-absent of the row; the other tables are unchanged |
| NewsDb.Store.SaveNewsToGnoticiasWithSentiment | gnoticias/db_gnoticias.py:154-190 | `gnoticias` gets the row with its optional sentiment and topic unless the key exists; the other tables are unchanged |
| NewsDb.Store.SaveNewsToGnoticias | gnoticias/ex_gnoticias_historico.py:118 | `gnoticias` gets the unenriched row unless the key exists; the other tables are unchanged |
| NewsDb.Store.MarcarCandidatoComoProcesado | gnoticias/db_gnoticias.py:82-93 | `candidatos` becomes `MarkProcessed` of the old table; the news tables are unchanged |
| NewsDb.Store.ResetCandidatosNews | gnoticias/db_gnoticias.py:143-152 | `candidatos` becomes `ResetEx` of the old table; the news tables are unchanged |
| NewsDb.Store.UpdateNewsSentiment | gnoticias/db_gnoticias.py:224-239 | `gnoticias` becomes `UpdateSentiment` of the old table; the other tables are unchanged |
| NewsDb.Store.NextCandidate | gnoticias/ex_gnoticias.py:322-323 | the query returns the lowest id with `ex` unset and a topic, or nothing exactly when no such candidate exists |
| NewsDb.Store.GetNewsWithoutSentiment | gnoticias/db_gnoticias.py:204-222 | at most `limit` distinct pending rows with their candidate's name, newest first, none newer left out, all pending rows when fewer than `limit`, `[]` on a storage error |
| RunLedger.Start | gnoticias/db_log_ejecucion.py:8-21 | a `running` record with message `mensaje or ''`, the start time and no end, added under the new id unless the store failed |
| RunLedger.Finish | gnoticias/db_log_ejecucion.py:24-35 | the record's status, message and end time are set, its process and start kept; an unknown id or a failing store changes nothing |
| RunLedger.StartAsError | gnoticias/db_log_ejecucion.py:53-67 | an `error` record whose start and end are both now |
| RunLedger.EndAfterErrorWins | gnoticias/db_log_ejecucion.py:24-50 | an end written after an error replaces the `error` status and message |
| RunLedger.StartThenEnd | gnoticias/db_log_ejecucion.py:8-35 | a started and then ended run keeps its process and start time and shows the final status |
| RunLedger.Ledger.LogStart | gnoticias/db_log_ejecucion.py:8-21 | returns a fresh id even when the insert failed; the table becomes `Start` of the old one |
| RunLedger.Ledger.LogEnd | gnoticias/db_log_ejecucion.py:24-35 | the table becomes `Finish` with message `mensaje or ''` |
| RunLedger.Ledger.LogErrorUpdate | gnoticias/db_log_ejecucion.py:38-50 | the table becomes `Finish` with status `error` and the exception text |
| RunLedger.Ledger.LogErrorNew | gnoticias/db_log_ejecucion.py:53-67 | returns a fresh id; the table becomes `StartAsError` of the old one |
| IaQuota.GetModelosConfig | gnoticias/db_log_ia.py:12-18 | one model, `gemini-1.5-flash`, with quota 45, and no name twice |
| IaQuota.NextAvailable | gnoticias/db_log_ia.py:27-40 | None exactly when every model has reached its quota today; otherwise the first model in order still below it |
| IaQuota.LogCall | gnoticias/db_log_ia.py:51-70 | today's count for the model goes up by one, created at 1 when missing; no other row changes and no count decreases |
| IaQuota.LogCallsCount | gnoticias/db_log_ia.py:45-74 | `n` calls raise that day's count by exactly `n` and change no other model or date |
| IaQuota.NewDayStartsAtZero | gnoticias/db_log_ia.py:28-34 | on a date with no rows every model counts 0, so the first model is offered |
| IaQuota.QuotaExhaustedAfter45 | gnoticias/db_log_ia.py:16-40 | after 45 calls of `gemini-1.5-flash` in one day no model is available that day |
| IaQuota.QuotaLog.GetNextAvailableModel | gnoticias/db_log_ia.py:20-43 | the loop with early return gives `NextAvailable` of today's counts |
| IaQuota.QuotaLog.LogApiCall | gnoticias/db_log_ia.py:45-74 | the read-then-write leaves the table as `LogCall` of the old one |
| DailyNews.NormalizeText | gnoticias/ex_gnoticias.py:40-49 | the result has only `[a-z0-9]` and single spaces, with no leading or trailing space |
| DailyNews.NormalizeTextIdempotent | gnoticias/ex_gnoticias.py:40-49 | normalising a normalised text returns it unchanged |
| DailyNews.LimpiarApellidos | gnoticias/ex_gnoticias.py:70-74 | a token is kept exactly when it is an input token outside the particle set, and the result is no longer than the input |
| DailyNews.LimpiarApellidosConcat | gnoticias/ex_gnoticias.py:70-74 | the filter works token by token, so it keeps the original order |
| DailyNews.BuscarNombreEnTitular | gnoticias/ex_gnoticias.py:76-112 | invalid for fewer than two words; raises exactly for two or more words that are all particles; an exact hit has score 100 and a span inside the normalised headline; the compound rule needs three clean tokens |
| DailyNews.LadderFirstHit | gnoticias/ex_gnoticias.py:84-97 | the precedence ladder returns the first rule whose phrase occurs, with score 100, and falls through to the fuzzy result exactly when no phrase occurs |
| DailyNews.BuscarIsLadder | gnoticias/ex_gnoticias.py:76-112 | on a name with a clean token, `buscar_nombre_en_titular` is the ladder over the exact rules followed by the fuzzy tier |
| DailyNews.BuscarFollowsLadder | gnoticias/ex_gnoticias.py:84-97 | the first exact rule, in ladder order, whose phrase occurs decides; when none occurs the fuzzy tier decides |
| DailyNews.SearchWholeWord | gnoticias/ex_gnoticias.py:62-64 | the `\b`-delimited search finds the word exactly when it occurs at or after the start position with no word character on either side |
| DailyNews.MatchNombreTitular | gnoticias/ex_gnoticias.py:51-68 | true exactly when the name has a word and its last word occurs between word boundaries in the headline, or the whole normalised name is a substring |
| DailyNews.ProcessFeedEntry | gnoticias/ex_gnoticias.py:116-204 | None exactly without a date, with a date `datetime` rejects, or without a link; otherwise the key is the digest of the id, the id falls back to the URL, the link is the decoded URL or the URL, and the calendar fields are the entry's own |
| DailyNews.DailyRunSound | gnoticias/ex_gnoticias.py:256-273 | the fetch keeps every stored row, and each added row is the row of an entry that parsed, has a link and whose headline names the candidate |
| DailyNews.DailyRunComplete | gnoticias/ex_gnoticias.py:256-273 | when no entry stops the loop, every accepted entry ends up stored under its key |
| DailyNews.NoStopForUsableName | gnoticias/ex_gnoticias.py:79-83 | only a name whose words are all particles can stop the loop early |
| DailyNews.HandleEntry | gnoticias/ex_gnoticias.py:257-273 | one entry of the fetch loop: a kept entry is inserted unless its key is stored, every other verdict leaves `gnoticias_ex` as it was; it reports a stop exactly when the name search raised |
| DailyNews.FetchNewsForCandidate | gnoticias/ex_gnoticias.py:233-280 | `gnoticias_ex` becomes the fold over the feed, or stays as it was when fetching the feed raised; the candidate's `ex` is set either way |
| DailyNews.ResetStartsProgress | gnoticias/ex_gnoticias.py:311-314 | after the reset no candidate has `ex` set and none has been visited, which is where the work queue starts |
| DailyNews.VisitLowest | gnoticias/ex_gnoticias.py:317-337 | visiting the lowest waiting candidate keeps the queue invariant and removes that candidate from the queue |
| DailyNews.FetchAdds | gnoticias/ex_gnoticias.py:233-280 | every row a fetch adds to `gnoticias_ex` is a row of that candidate, under its own key, kept from an entry of the fetched feed |
| DailyNews.FromVisitedStep | gnoticias/ex_gnoticias.py:331-339 | a visit that adds only rows from the visited candidate's feed keeps every added row traceable to the feed of a visited candidate |
| DailyNews.VisitCandidate | gnoticias/ex_gnoticias.py:336-339 | fetching the lowest waiting candidate keeps the queue invariant with that candidate visited, takes it off the queue, loses no stored row, and adds only rows kept from that candidate's feed under its own name |
| DailyNews.RunQueue | gnoticias/ex_gnoticias.py:317-339 | the queue visits each candidate with a topic once, in increasing id order, sets `ex` exactly on them, loses no stored row, and every added row comes from the feed of a visited candidate |
| DailyNews.ProgressDone | gnoticias/ex_gnoticias.py:331-334 | with the queue empty, the visited candidates are exactly those with a topic |
| DailyNews.MainDaily | gnoticias/ex_gnoticias.py:284-349 | each candidate with a topic is visited once, in increasing id order; afterwards `ex` is set exactly on the candidates with a topic and no other field changed; no stored row is lost and every new row of `gnoticias_ex` was kept, under its own key, from the feed of a visited candidate; the run record ends `finished` with "No quedan candidatos" |
| HistoricalNews.NormalizeText | gnoticias/ex_gnoticias_historico.py:27-33 | the result has only `[a-z0-9]` and single spaces, trimmed; the empty text gives "" |
| HistoricalNews.NormalizeTextIdempotent | gnoticias/ex_gnoticias_historico.py:27-33 | normalising a normalised text returns it unchanged |
| HistoricalNews.EsRelevante | gnoticias/ex_gnoticias_historico.py:102-109 | the loop answers true exactly when some stripped, normalised keyword is a substring of the normalised headline |
| HistoricalNews.TrailingCommaMatchesEverything | gnoticias/ex_gnoticias_historico.py:102-109 | a keyword list ending in a comma makes every headline relevant |
| HistoricalNews.ProcessFeedEntry | gnoticias/ex_gnoticias_historico.py:45-82 | raises exactly when the decoder raises; None exactly for an empty link; the id is the entry id or the URL; the stored `fecha` is the query day's stamp (`QueryDayStamp`: 19:00:00 of the day before, with that day's date and instant); year, month, day, hour and minute are read from it, and weekday and day of year are those of the day before |
| HistoricalNews.QueryDayStamp | gnoticias/ex_gnoticias_historico.py:56 | `fecha_local` of a query day has the previous day's date, the clock 19:00:00 and that instant |
| HistoricalNews.EntryVerdict | gnoticias/ex_gnoticias_historico.py:95-118 | an entry is kept only when it parsed, the candidate has keywords and the headline is relevant; the day stops exactly when the decoder raised |
| HistoricalNews.DayRunSound | gnoticias/ex_gnoticias_historico.py:95-119 | a day keeps every stored row and adds only unenriched rows of kept entries |
| HistoricalNews.HistRunSound | gnoticias/ex_gnoticias_historico.py:86-124 | the backfill keeps every stored row, and each added row is an unenriched row kept on a day of the range |
| HistoricalNews.NoKeywordsNoRows | gnoticias/ex_gnoticias_historico.py:99-101 | a candidate with empty or missing keywords gets no rows |
| HistoricalNews.FetchNewsForCandidateHistorico | gnoticias/ex_gnoticias_historico.py:84-125 | each day of the range is visited once in increasing order, and none when start is after end; `gnoticias` becomes the fold over the days; `his` is set |
| HistoricalNews.FetchEntry | gnoticias/ex_gnoticias_historico.py:95-118 | one entry of the day loop: a kept entry is inserted unenriched unless its key is in `gnoticias`, every other verdict changes nothing; it reports a stop exactly when the decoder raised |
| HistoricalNews.FetchDay | gnoticias/ex_gnoticias_historico.py:95-119 | the entry loop of one day leaves `gnoticias` as the day's fold |
| HistoricalNews.ConfiguredRange | gnoticias/ex_gnoticias_historico.py:132-133 | the day numbers of the range are 2024-01-01 and 2025-11-22 |
| HistoricalNews.IdsToString | gnoticias/ex_gnoticias_historico.py:138 | `str(CANDIDATOS_IDS)` is bracketed |
| HistoricalNews.ListBodySplits | gnoticias/ex_gnoticias_historico.py:138 | comma-free texts joined by `", "` split on `,` back into one field per text, after a space for all but the first |
| HistoricalNews.IdsBodySplits | gnoticias/ex_gnoticias_historico.py:138 | the text between the brackets splits on `,` into one field per id: the id's numeral, after a space for all but the first |
| HistoricalNews.RunCandidatesEffect | gnoticias/ex_gnoticias_historico.py:142-150 | the backfill sets `his` on exactly the listed candidates that exist, changes no other field, and keeps every stored row |
| HistoricalNews.MainHistorico | gnoticias/ex_gnoticias_historico.py:135-154 | the tables become the fold over the configured ids; the run record ends `finished` with "Proceso histórico completado." |
| Sentiment.KeyOfLine | gnoticias/procesar_sentimientos.py:24-26 | the key is the second `=`-field of the stripped line, which holds no `=`; None exactly when the line has no `=`, the IndexError that `get_api_key` catches |
| Sentiment.ApiKeyOf | gnoticias/procesar_sentimientos.py:18-30 | for an existing file, the key of the first line starting with the key name; None when no line starts with it |
| Sentiment.GetApiKey | gnoticias/procesar_sentimientos.py:18-30 | the loop with early return gives `ApiKeyOf` of the file's lines, and None for a missing file |
| Sentiment.AnalizarSentimiento | gnoticias/procesar_sentimientos.py:53-58 | a failed model call gives a falsy value; otherwise the parsed reply |
| Sentiment.Step | gnoticias/procesar_sentimientos.py:92-110 | one row: a non-empty object gives every row of that item the reply's `sentimiento` and `tema_principal` (None when missing) and the analysis time, and counts one; any other truthy value leaves the rows and sets this run's record to `error` with the AttributeError text of `.get`; a falsy reply changes nothing |
| Sentiment.CountAnalysed | gnoticias/procesar_sentimientos.py:76-99 | the number of successful analyses is at most the batch size |
| Sentiment.BatchTotal | gnoticias/procesar_sentimientos.py:76-113 | the returned total is exactly the number of rows whose reply was a non-empty object |
| Sentiment.BatchRows | gnoticias/procesar_sentimientos.py:93-102 | no row is added or removed; a row changes only when a row of its item was analysed, and then it carries the analysis time |
| Sentiment.BatchValueAt | gnoticias/procesar_sentimientos.py:93-102 | a row of an analysed item ends with the sentiment and topic of the last analysed batch row of that item |
| Sentiment.BatchIgnoresLedger | gnoticias/procesar_sentimientos.py:93-110 | what the batch does to `gnoticias` and to the count does not depend on the ledger or on the run id errors are logged against |
| Sentiment.BatchRecords | gnoticias/procesar_sentimientos.py:106-110 | the batch touches no ledger record but this run's, and keeps its process and start time |
| Sentiment.AnalyseBatch | gnoticias/procesar_sentimientos.py:76-110 | the loop over the batch leaves the rows, the run records and the total as the fold of `Step` over the whole batch, with no early stop |
| Sentiment.ProcesarTodasLasNoticiasSinSentimiento | gnoticias/procesar_sentimientos.py:60-113 | the batch is the 250 newest pending rows, or all of them when fewer, newest first; tables and total are the fold over that batch |
| Sentiment.BatchOutcome | gnoticias/procesar_sentimientos.py:76-113 | a batch logged against a run changes `gnoticias` as `NewsAfterBatch` and counts exactly its analysed rows |
| Sentiment.ProcessUnderRun | gnoticias/procesar_sentimientos.py:60-113 | the batch of the newest pending rows, its errors logged against the run: `gnoticias` becomes `NewsAfterBatch`, the total is the analysed count, and only the run's own record may change |
| Sentiment.RunWithKey | gnoticias/procesar_sentimientos.py:122-129 | the batch is the newest pending rows; `gnoticias` becomes `NewsAfterBatch` of it and the total is its analysed count; exactly one new run record, ending `completed` with "Total procesadas: " and that count, whatever error the batch logged; no other record changes |
| Sentiment.MainSentimientos | gnoticias/procesar_sentimientos.py:116-129 | a run is logged exactly when the key file holds a non-empty key; without one nothing is logged or changed; with one the batch, the new rows, the total and the run record are as `RunWithKey` states |

## Left out

- Network and feed plumbing are not modelled: `feedparser.parse`, `gnewsdecoder`, `requests` and `build_gnews_url`. A feed is a value, either its entries or an exception. The decoder is a function passed in.
- `hashlib.md5` is a function passed in. MD5 itself is not modelled.
- The fuzzy tier of `buscar_nombre_en_titular` (`SequenceMatcher` ratios in floating point, lines 97-112) is a function passed in. It is consulted only when no exact rule fired.
- Unicode folding is modelled for the Latin-1 accented letters, upper and lower case, and the combining marks U+0300 to U+036F.
  - Other characters that NFD would reduce to ASCII are treated as letters without a decomposition.
  - In the daily normaliser they become separators. In the historical one they are dropped.
- `DailyNews.FoldChar`: the daily `normalize_text` drops every category-Mn mark after NFD (ex_gnoticias.py:43-46), including marks outside U+0300 to U+036F such as U+1DC4 or U+20D7. The model treats those marks as separators, because it has no Unicode category table. So "Pe\u1DC4tro" normalises to "petro" in Python but to "pe tro" in the model.
- `HistoricalNews.NormalizeText`: `None` input is not modelled. Strings are never `None` here.
- The `with get_db_connection()` connections, `uuid4`, `datetime.now`, `date.today` and `time.sleep` are not modelled.
  - Ids are a counter in `RunLedger.Ledger`.
  - Times are `now` arguments.
  - "Today" is a `today` argument.
- Storage failures are not injected by the orchestration loops. Under a failing store, the daily work queue would select the same candidate forever, because its flag is never set. That run is not modelled.
- `IaQuota.QuotaLog.LogApiCall` and `IaQuota.QuotaLog.GetNextAvailableModel`: `db_log_ia.py` lets sqlite errors escape, and those errors are not modelled.
- `DailyNews.MainDaily`: the `except` path that calls `log_error_update` / `log_error_new` and re-raises (lines 341-349) is not modelled. `fetch_news_for_candidate` catches every exception of the feed loop, and the store swallows its own errors, so nothing reaches that path.
- `HistoricalNews.MainHistorico`: the `except` path that calls `log_error_update` (lines 151-153) is not modelled, for the same reason.
- The date arguments of the daily `main` are not modelled. Only the start date's text, which goes into the log message, is a parameter. `end_date` and `id_tema` are passed to the fetch but never used.
- The query text of the feeds is not modelled. Each feed is given per candidate, and per day for the historical script.
- `prelim['id_log']` is set before the historical save. The save does not store it.
- `Sentiment.AnalizarSentimiento`: the model is a function from prompt to reply.
  - Its reply's members are strings.
  - The response schema and `genai.configure` are not modelled.
  - Reading `api_keys.txt` from disk is not modelled. The file is given as its lines, or as None when it is missing.
- The `print` diagnostics of every script are not modelled.
- `NewsDb.Store.GetNewsWithoutSentiment`: rows with equal `fecha` may come in any order.
- `NewsDb.InsertIfAbsent`: according to the source's own error messages, `gnoticias_ex_his` and `gnoticias_ex` also refuse a second row with the same link or original id under a different key. The source swallows that IntegrityError and drops the row (db_gnoticias.py:76-77 and 138-139). The model keys each table by the dedup key only and has no link or id index, so it never drops such a row.
- `DailyNews.DailyRunComplete`: "every accepted entry ends up stored" holds only when no accepted entry repeats the link or original id of a stored row under another key, because of the constraint above.
- The stored historical `fecha` is the Colombian wall-clock time. The UTC offset that the aware `datetime` carries is not kept in `News`.
