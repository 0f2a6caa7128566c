# youtrack-tasks: the ETL core, modelled in Dafny

The repository is one script, `main.py`. It fetches issues from a YouTrack
tracker page by page and normalizes each record into an `Issue`. The
normalization reduces a few custom fields and parses two compact duration
strings. This project models the script's pure logic and proves properties of
it. There are three parts, plus the fetch loop that joins them.

- **Duration parser** (`parse_time_string`, module `Duration`, file
  `duration.dfy`). A string of `<digits><unit>` tokens becomes a number of
  minutes. The units are `н` weeks, `д` days, `ч` hours and `м` minutes.
  - The search done by `re.findall(r'(\d+)([ндчм])', …)` is modelled exactly
    for ASCII digits (`ScanFrom`). It yields the `(amount, unit)` pairs as
    strings (`Match`). It is proved equal to an independent,
    position-by-position reading of the pattern (`RefMatchesFrom`).
  - `int(amount)` is applied to each match (`Amounts`), which gives the
    numeric tokens the loop assigns.
  - The `time_kwargs` dictionary is a left fold of assignments (`Assign`). It
    is proved equal to a "last occurrence of each unit" reading (`LastAmount`).
  - A truthy value that is not a string makes `re.findall` raise `TypeError`.
    `ParseTimeValue` models that as a `Failure`.
- **Custom-field extractor** (`get_custom_field_value`, module `CustomFields`).
  It is a first-match linear search. An object value is reduced to its
  `presentation` when that is truthy, otherwise to its `name`. The result is an
  `Option`, where `None` is Python's `None`.
- **Record mapping** (module `Issues`). Missing top-level keys become `"N/A"`.
  Four custom fields are read by their fixed Russian names. A start date exists
  only for an integer value. The two durations are parsed.
- **Pagination and the fetch loop** (modules `Pagination` and `Fetcher`).
  - The network is replaced by the sequence of responses the server gives, one
    per request.
  - `Paginate` is the functional reading and `GetTasks` is the loop as
    written. They are proved to agree.
  - The loop takes the per-record body as a parameter. `get_tasks` itself is
    `GetTasks(MapIssue, responses)`. The agreement holds for every body, and the
    lemmas about the fetcher's results are stated with `MapIssue`.
  - Requests use `$skip` 0, 100, 200, and so on.
  - The loop stops at the first empty page or the first non-200 status. A short
    page does not stop it.
  - An exception raised while mapping a record ends the whole call, and nothing
    is returned.

A few facts about `main.py` that the model follows:

- The extractor returns `None` for an object value with no truthy
  `presentation` and no `name` (main.py:30-31). A field whose value is JSON
  null also gives `None`, the same as a missing field.
- The parser can raise. A non-zero integer value reaches `re.findall`, which
  raises `TypeError` (main.py:36-43).
- `main()` (main.py:130-140) prints a line and calls `get_tasks()`. The
  database connection, the migrations and the insertion are commented-out
  lines there, so `make_migrations` and `insert_into_postgres` are not part of
  this model.

Durations are total minutes, `w·10080 + d·1440 + h·60 + m`. The start date is
kept as the millisecond epoch it would be converted from.

## Model

| member | source | states |
|---|---|---|
| CustomFields.Reduce | main.py:29-31 | An object value gives its presentation when that is non-empty, otherwise its name, otherwise `None`. A string or integer is returned unchanged, and null gives `None`. The result is never an object. |
| CustomFields.Lookup | main.py:25-32 | With no field of that name the result is `None`. Otherwise it is the reduced value of the FIRST field with that exact name, and it is always a scalar. |
| CustomFields.LookupIgnoresLaterFields | main.py:26-28 | Once a field with the name occurs, fields appended after it never change the result, even ones with the same name. |
| CustomFields.LookupSkipsOtherNames | main.py:26-27 | Fields with other names in front of the list do not change the result. |
| CustomFields.ExtractorCases | main.py:29-32 | Presentation beats name. Name is the fallback when presentation is missing or empty. With neither, the result is `None`. A present empty string is distinct from an absent field. |
| Duration.DigitRunEnd | main.py:40 | The greedy `\d+` ends at the end of the maximal digit run: every character before it is a digit and the one at it is not. |
| Duration.Decimal | main.py:45 | `int(amount)` reads back the decimal rendering of every natural number, so the parsed amount is the number written. |
| Duration.ParseTimeString | main.py:36-37 | The empty string is the zero duration, and every result is a non-negative number of minutes. |
| Duration.ParseTimeValue | main.py:35-43 | `None`, `""`, `0` and null give zero, and a string gives its parsed duration. The call raises exactly for an object or a non-zero integer. |
| Duration.DecimalValue | main.py:45 | `int(amount)` on a run of digits. `Decimal` shows that it reads back the decimal rendering of every natural number. |
| Duration.ScanFrom | main.py:40-43 | The `findall` search from position `i`. `SearchMatchesReference` shows that from the start of any string it equals the position-by-position reading. |
| Duration.SearchMatchesReference | main.py:40-45 | The regex search yields exactly the matches where a maximal digit run is immediately followed by a unit letter, in order of position. The tokens are those matches with `int` applied. |
| Duration.AmountsAppend | main.py:43-45 | Applying `int(amount)` to the matches commutes with concatenating them. |
| Duration.TokensAppend | main.py:40-45 | Text ending in a non-digit is a match boundary. The matches, and so the tokens, of `t + s` are those of `t` followed by those of `s`. |
| Duration.LeadingNonDigitIgnored | main.py:40-43 | A non-digit character in front of the text changes nothing. |
| Duration.SingleToken | main.py:40-45 | A number followed by a unit letter is exactly one match, whose digits are the number's rendering. That is one token with that amount and unit. |
| Duration.NumberWithoutUnit | main.py:40-43 | A number followed by a character that is neither a digit nor a unit letter yields no match and so no token. |
| Duration.Assign | main.py:41-45 | The keys of the built dictionary are the keys it started with plus every unit some token mentions. A unit no token mentions keeps its starting value. `CollectIsLastAmount` states the values. |
| Duration.TotalMinutes | main.py:47 | `timedelta(**time_kwargs)` in minutes, with a missing unit counting as 0. `ParseTimeStringIsWeightedLast` states its value on every parsed string. |
| Duration.CollectIsLastAmount | main.py:41-45 | For every unit, the assignment loop leaves the amount of the last token with that unit, or nothing when there is none. |
| Duration.LastOccurrenceWins | main.py:43-45 | The token at the latest position for its unit decides that unit's amount. Earlier tokens of the unit are overwritten, not added. |
| Duration.ParseTimeStringIsWeightedLast | main.py:35-47 | The duration is weeks·10080 + days·1440 + hours·60 + minutes. Each amount is the last one found for that unit by the position-wise reading, or 0. |
| Duration.SingleTokenDuration | main.py:39-47 | `n` followed by a unit letter is `n` times that unit's minutes. |
| Duration.RepeatedUnitLastWins | main.py:43-47 | A repeated unit is not summed. `a` then `b` of the same unit gives `b` of it. |
| Duration.DistinctUnitsAdd | main.py:43-47 | Tokens of two different units add up. |
| Duration.TwoTokens | main.py:40-45 | Two number-and-unit pairs in a row are exactly two tokens, in order, with their amounts and units. |
| Duration.WeightedLastOfTwo | main.py:43-47 | One token is its amount times its unit's minutes. For two tokens of the same unit only the second counts; for different units the two products add up. |
| Duration.ParserExamples | main.py:35-47 | "2д3ч" is 3060 minutes, "5ч5ч" is 300, "7x" is 0 and "" is 0. |
| Pagination.PaginateFrom | main.py:62-124 | The k-th request uses `$skip` = start + 100·k, and there is at most one request per response. The loop ends for lack of responses only when no response stopped it. |
| Pagination.Paginate | main.py:62-124 | The gathered records are the bodies of all responses before the first one that is non-200 or empty, in order. The k-th request uses `$skip` 100·k. |
| Pagination.StopIndex | main.py:70-73 | Gives the first response that is non-200 or empty; every response before it is a successful non-empty page. |
| Pagination.PaginateCollectsPagesBeforeStop | main.py:66-124 | The gathered records are exactly the bodies of all responses before the first stopping one, in order. Requests go up to and including that response, and the stop reason is its status or its emptiness. |
| Pagination.ShortPageDoesNotStop | main.py:70-120 | After a successful page shorter than 100 records, a second request with `$skip` 100 is still made. |
| Pagination.TwoPagesThenEmpty | main.py:66-120 | Two pages and then an empty page give both pages in order, after requests at 0, 100 and 200. |
| Pagination.FailureKeepsEarlierPages | main.py:66-124 | A non-200 second response keeps exactly the first page, after requests at 0 and 100. |
| Issues.ProjectName | main.py:78 | A missing project or a missing project name gives "N/A"; otherwise the result is the name. |
| Issues.ReporterName | main.py:79 | A missing reporter or a missing full name gives "N/A"; otherwise the result is the full name. |
| Issues.StartDate | main.py:85-88 | A start date exists exactly when the looked-up value is an integer, and it is that integer. |
| Issues.MapIssue | main.py:74-119 | Each top-level key defaults to "N/A" when missing. The status is the looked-up value. The start date is the looked-up value when that is an integer and is absent otherwise. Within the model, mapping raises exactly when one of the two duration values raises. The estimation's exception comes first; when only the time spent raises, its exception is the result. |
| Issues.EmptyRecordDefaults | main.py:75-92 | A record without any key maps to "N/A" everywhere, no status, no start date and zero durations. |
| Issues.EstimationFromPresentation | main.py:82-91 | When the first estimation field has a non-empty presentation, the estimation is that presentation parsed. |
| Issues.IntegerEstimationRaises | main.py:82-91 | A first estimation field holding a non-zero integer makes the record raise. |
| Issues.StartDateOnlyForIntegers | main.py:85-88 | The start date is present iff the first start-date field holds an integer, and then it equals that integer. |
| Fetcher.MapAll | main.py:74-119 | On success there is one issue per record. On failure some record raised that exception. `MapAllSpec` gives the full characterization. |
| Fetcher.MapAllSpec | main.py:74-119 | If every record maps, the result is every record's mapping in order. Otherwise the result is the exception of the first record that raises. |
| Fetcher.MapAllAppend | main.py:66-119 | Mapping two runs of records one after the other equals mapping their concatenation. |
| Fetcher.MapAllExtend | main.py:74-119 | One more record mapped without raising extends the mapped prefix by its issue. |
| Fetcher.MapAllStopsAt | main.py:74-119 | Once a prefix maps and the next record raises, the whole call raises that exception. |
| Fetcher.MapPage | main.py:74-119 | The inner loop over one page equals mapping the page as a whole. |
| Fetcher.GetTasks | main.py:62-127 | The loop as written, with `start += 100` and the early exits, equals paginating and then mapping every gathered record. |
| Fetcher.FetchedIsPagesBeforeStop | main.py:62-127 | The returned issues are the mapped records of every page before the first empty or non-200 response, in order. The k-th request used `$skip` 100·k, and the stop reason is recorded. |
| Fetcher.FailureMidPaginationKeepsFirstPage | main.py:66-124 | A non-200 second response returns exactly the first page's issues. |

## Left out

- HTTP transport: `requests.get`, headers, token, field list and URL building (main.py:51-60, 67-68) are network I/O. The responses are an input sequence instead.
- Pagination.PaginateFrom: the modelled server is finite. Running out of responses stops the loop with `NoMoreResponses`, whereas the script would send another request.
- Output: all `print` calls (main.py:94-105, 122-123, 126). `time_difference` (main.py:93) is computed only to be printed, but the subtraction itself can raise; see the `Issues.MapIssue` line below.
- Issues.StartDate: keeps the millisecond integer instead of calling `datetime.fromtimestamp(ms / 1000)`. That call uses floating-point division and the local timezone, and can raise for out-of-range values.
- `Issue` validation by pydantic (main.py:13-22) is library behaviour. `Issue` is a plain record, so a status that is an integer is kept as is, where pydantic would reject or coerce it.
- The database connection, migrations and insertion in `main()` (main.py:131-144) are commented-out lines. `make_migrations` and `insert_into_postgres` are not part of this model.
- Duration.ParseTimeString: only ASCII `0`-`9` count as digits, while Python's `\d` also matches other Unicode decimal digits.
- Duration.ParseTimeString: minutes are unbounded. The `OverflowError` that `timedelta` raises beyond 999999999 days is not modelled.
- Duration.ParseTimeString: amounts are unbounded. CPython's default limit on integer-string conversion makes `int(amount)` (main.py:45) raise `ValueError` for a run of more than 4300 digits, even when a later token of the same unit would overwrite it; for example `"1"*4301 + "ч1ч"` raises, while the model gives 60 minutes. This limit is an interpreter setting, not part of the script.
- Issues.MapIssue: the exceptions that `datetime.fromtimestamp` (main.py:86) and pydantic validation of `Issue` (main.py:108-119) can raise are not modelled. The model raises only from the two duration parses.
- Issues.MapIssue: the `OverflowError` from `estimation_timedelta - time_spent_timedelta` (main.py:93) is not modelled. The difference is below the `timedelta` minimum of -999999999 days when, for example, there is no estimation and the time spent is `999999999д1м`; Python raises, while the model maps the record. This follows from leaving out `timedelta`'s range on the two durations themselves.
- Issues.MapIssue: a top-level key present with JSON null is not modelled. `.get` would return `None`, and for `project`/`reporter` the next `.get` would raise `AttributeError`. A key is either present with a value or missing.
- CustomFields.Lookup: custom-field records always carry `name` and `value`. A record missing either key, which would raise `KeyError`, is not modelled.
- CustomFields.FieldValue has no boolean, float or list variant. In particular, Python's `isinstance(True, int)` case for the start date is not modelled.
- Duration.ParseTimeValue: an object value counts as truthy and raises. An empty dict would be falsy, but the lookup never yields an object, so no caller can pass one.
- A response body that is not a JSON array, or that is not valid JSON, is not modelled.
