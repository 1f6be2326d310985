# Funding-history fetcher, modelled in Dafny

The fetcher reads a list of assets and, for each one, downloads that asset's
funding-rate history from the start of the current year until now. It writes
every record to a CSV file named after the asset. The service answers at most
500 records per request (`EXPECTED_ENDPOINT_TOTAL`). The fetcher pages through
the history with a cursor `from`:

- each request asks for the records at or after `from`, with no end time;
- `from` then moves to the timestamp of the last record of the page;
- the page is written;
- the loop stops after the first page shorter than 500.

The lower bound is inclusive, so the last record of a page comes back as the
first record of the next page and is written twice. Nothing removes the
duplicate. The fetcher panics when a request fails, when a record's time is
not a valid instant, or when a page comes back empty (`last().unwrap()`). It
also panics when a record's funding rate or premium is not a number; that
case is not modelled (see "## Left out").

The model has six modules, in five files:

- `Calendar`: the epoch-millisecond value of 1 January of a year, and the
  range of instants a UTC date-time can hold. The closed-form day count is
  proved equal to a year-by-year reference count.
- `Funding`: the raw and converted records, the `as i64` and `as u64` casts,
  and the conversion `From<&FundingHistoryResponse>`, for one record and for
  a whole page.
- `Pagination`:
  - the service, modelled as a function from (asset, lower bound) to a page;
  - `Paginate`, the specification of one asset's loop as a trace of queries,
    pages, final cursor and outcome;
  - the class `AssetRun`, holding the mutable cursor `from` and the written
    output, whose `Turn` and `Run` methods are the loop body and the loop;
  - `FetchAll`, the loop over all assets, proved against `RunAll`.
- `PaginationProperties` and `BatchProperties`: what the loop guarantees for
  every service.
- `Scenarios`: concrete runs. The main one is pages of 500, 500 and 3
  records, which give three queries and 1003 written records, with both
  boundary records written twice.

A run is bounded by `fuel`, the largest number of requests it may send. The
source's loop has no such bound. `PaginationProperties.StallsForever` shows
when the source would never stop: a full page whose last record has the
queried time. `Scenarios.StalledCursor` is a concrete service that does this.

## Model

| member | source | states |
|---|---|---|
| Calendar.YearStart | src/main.rs:49-51 | 1 January 00:00 UTC of a year is defined exactly for years -262143..262142. Its millisecond value is the year-by-year day count from 1970 times 86 400 000. It is a representable instant and a whole day. |
| Calendar.DaysBeforeYearIsDaysFromEpoch | src/main.rs:49-51 | The closed-form Gregorian day count (365 days a year plus leap days) equals the year-by-year count, for every year before and after 1970. |
| Calendar.DaysBeforeYearIncreasing | src/main.rs:49-51 | A later year starts on a strictly later day. |
| Calendar.Representable | src/main.rs:20 | Defines which millisecond counts `from_timestamp_millis` accepts: those whose floored day number lies from 1 January of year -262143 up to, but not including, 1 January of year 262143. |
| Funding.AsI64 | src/main.rs:20 | `time as i64` lies in the signed 64-bit range. It is non-negative exactly when the time is below 2^63. It is the time itself or the time minus 2^64. |
| Funding.AsU64 | src/main.rs:57 | `timestamp_millis() as u64` keeps a non-negative value unchanged, and maps a negative signed value `x` to `x + 2^64`, which is 2^63 or more. |
| Funding.CastsRoundTrip | src/main.rs:20 | The two casts undo each other on their 64-bit domains. |
| Funding.Convert | src/main.rs:14-23 | The conversion succeeds exactly when the signed time is a representable instant. Otherwise it fails with that time. It copies the coin. The new timestamp is a signed 64-bit value and a representable instant. It casts back to the service's time, and equals that time below 2^63. Together these fix it to the `as i64` value. |
| Funding.ConvertPage | src/main.rs:60-62 | Converting a page keeps its length. |
| Funding.ConvertPageSpec | src/main.rs:60-62 | A page converts exactly when every record converts. Each record is then converted in place. Otherwise the failure is that of the first record that does not convert. |
| Pagination.FetchPage | src/main.rs:56-62 | Defines one request: the service is asked with the cursor cast to `u64` and no end time. A failed request is `ServiceError`; otherwise the answer is the converted page, or the failure of the first record that does not convert. |
| Pagination.TakeStep | src/main.rs:56-73 | Defines one turn of the loop: a failed fetch or an empty page halts with that failure. Otherwise the page is written, and the turn is the last exactly when the page holds fewer than 500 records. |
| Pagination.Paginate | src/main.rs:55-74 | Defines one asset's loop from a cursor, for at most `fuel` requests. Each turn queries with the cursor. A halting turn ends with a panic, no page and the cursor unmoved. A last turn ends complete, with the cursor on the page's last timestamp. Any other turn writes its page and continues from that page's last timestamp. |
| Pagination.AssetRun.constructor | src/main.rs:47-51 | A run starts with the cursor at the given start, an empty output and no requests. |
| Pagination.AssetRun.WritePage | src/main.rs:66-68 | Writing a page appends all of its records, in order, and changes nothing else. |
| Pagination.AssetRun.Turn | src/main.rs:56-73 | One turn sends the cursor as the lower bound and then does what `TakeStep` says. On a panic, the cursor and output are unchanged. Otherwise the cursor becomes the page's last timestamp and the page is appended to the output. |
| Pagination.AssetRun.Run | src/main.rs:55-74 | The loop's outcome, final cursor, written output (old output plus the concatenated pages) and sent queries are exactly those of `Paginate` from the old cursor. |
| Pagination.RunAsset | src/main.rs:45-76 | Defines one iteration of the asset loop: the asset's file is created empty. A year out of range panics with `InvalidYear`. Otherwise the file holds the pages of a run from 1 January of the year, and the iteration ends as that run does. |
| Pagination.RunAll | src/main.rs:44-77 | Defines the asset loop: assets are run in order, and the first one whose run does not complete ends the batch with that outcome. |
| Pagination.RunAllStops | src/main.rs:44-77 | Once an asset's run has not completed, later assets change no file. |
| Pagination.FetchAll | src/main.rs:44-77 | The files and outcome are those of `RunAll`. Each asset's file is created empty, its run starts at 1 January of the year, and the first failure ends the batch. |
| PaginationProperties.QueryCount | src/main.rs:55-74 | There is one query per written page, plus one for a panic. There are never more queries than the fuel, and exactly that many when the fuel runs out. |
| PaginationProperties.PagesFull | src/main.rs:64-73 | Every written page is non-empty. Every page except the last of a completed run has at least 500 records. |
| PaginationProperties.CompleteHasPage | src/main.rs:71-73 | A completed run wrote at least one page, and its last page is shorter than 500. |
| PaginationProperties.StoppingRule | src/main.rs:71-73 | A run completes if and only if its last written page is shorter than 500. All earlier pages are full, so the loop stops right after the first short page. |
| PaginationProperties.QueriesFollowCursor | src/main.rs:56-64 | The first query sends the start cursor. Every later query sends the last timestamp of the page before it. |
| PaginationProperties.CursorIsLastTimestamp | src/main.rs:64 | The final cursor is the last timestamp of the last written page, or the start cursor when no page was written. |
| PaginationProperties.EmptyPagePanics | src/main.rs:64 | An empty page panics after one query. Nothing is written and the cursor does not move. |
| PaginationProperties.StallsForever | src/main.rs:55-74 | For every service: when a full page ends on the time it was queried from, the loop never ends on its own. The cursor stays put, every query sends the same bound, and only the fuel stops the run. |
| PaginationProperties.PagesAreAnswers | src/main.rs:56-68 | For every service: written page k is the service's answer to query k, converted record by record. Together with `PageInOutput`, the output is every answer, in the order received, with nothing dropped, added or reordered. |
| PaginationProperties.PageBoundary | src/main.rs:66-68 | In the concatenated output, the last record of page k is directly followed by the first record of page k+1. |
| PaginationProperties.BoundaryWrittenTwice | src/main.rs:64-68 | For every service: between two written pages, the output holds the last record of the first directly followed by the first record of the second. When the service answers the next query with the boundary record again, that record is written twice in a row. |
| PaginationProperties.FlattenLength | src/main.rs:66-68 | The output is as long as the pages together. |
| PaginationProperties.PageInOutput | src/main.rs:66-68 | Page k sits whole in the output, right after the records of the pages before it. Nothing is filtered, reordered or deduplicated. |
| PaginationProperties.FetchedPageAscending | src/main.rs:56-62 | A page from a service that answers in ascending time order, at or after the bound, converts to ascending records at or after the cursor. |
| PaginationProperties.AscendingConcat | src/main.rs:66-68 | An ascending page followed by ascending records that start no earlier than its last timestamp is ascending. |
| PaginationProperties.OutputAscending | src/main.rs:55-74 | Against such a service, the output is in ascending time order and starts at or after the start cursor, duplicates included. |
| BatchProperties.CompletedBatchFiles | src/main.rs:44-51 | A completed batch has a file for exactly the configured assets. Each file holds the pages of a fresh run of its asset from 1 January of the year. |
| Scenarios.StartOf2024 | src/main.rs:49-51 | 1 January 2024 is 1704067200000 ms. |
| Scenarios.ThreePageTrace | src/main.rs:55-74 | Pages of 500, 500 and 3 records give three queries, at the start and at the two boundary times, and the run completes. |
| Scenarios.ThreePageOutput | src/main.rs:64-68 | That run writes 1003 records. Positions 499/500 and 999/1000 hold the same boundary record. |
| Scenarios.TwoRecordBatch | src/main.rs:44-77 | With two records in 2024, the batch makes one query, writes both records and completes. |
| Scenarios.EmptyAfterFullPage | src/main.rs:64-69 | A full page followed by an empty one leaves the first page written and the cursor on its last timestamp. The second query panics. |
| Scenarios.StalledCursor | src/main.rs:55-74 | For the service `Stalled`, whose every answer is a full page stamped at the start of 2024, a run from that time never moves its cursor: every query sends that time and only the fuel ends the run. |
| Scenarios.ConversionEdges | src/main.rs:20 | Time 2^64-1 converts to -1 ms through the signed cast. Time 2^62 lies past the date range and fails. |
| Scenarios.YearOutOfRange | src/main.rs:47-51 | A year past the date range panics at the first asset, after its file is created empty. |

## Left out

- The network client, the async runtime, reading `config.json`, and the CSV
  writer itself (header row, field formatting, flushing, I/O errors) are not
  modelled. An asset's file is modelled as the sequence of records written to
  it. `println!` output is not modelled.
- The clock: `Utc::now().year()` is a parameter `year`, the same for every
  asset. The source reads the clock once per asset.
- Funding.Convert: does not model the `f32` parsing of the funding rate and
  premium, or its panic on text that is not a number. The converted record
  keeps only the coin and the timestamp.
- The service is a deterministic function of asset and lower bound. Server
  state that changes between requests is not modelled. A failed request is
  one `Unavailable` answer.
- Pagination.Paginate: cuts the loop off after `fuel` requests, with outcome
  `FuelExhausted`. The source has no such bound, and can loop forever (see
  `PaginationProperties.StallsForever`).
- Calendar.Representable: assumes a chrono version whose date range is the
  years -262143 through 262142. Older versions allowed one more year at each end.
- A failure to create an asset's CSV file is not modelled.

## Notes on the source

- An empty page is not a normal end of the loop. `history.last().unwrap()`
  panics before anything of that page is written, and the process stops.
  Pages written earlier stay in the file.
- In a run whose only page has two records, the loop stops after that page
  because 2 is below 500. No second query is sent.
- When the service answers a query with the record at its lower bound, as an
  inclusive bound does, the boundary record of every full page is written
  twice in a row (`PaginationProperties.BoundaryWrittenTwice`). Nothing
  removes the duplicate.
