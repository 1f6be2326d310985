/** Worked runs of the fetcher against small concrete services: the
    three-page run that writes the boundary record twice, the two-record
    run, and conversions at the edges of the date range. */
module Scenarios {
  import opened Calendar
  import opened Funding
  import opened Pagination
  import opened PaginationProperties

  const Hour: int := 3_600_000

  /** 2024-01-01T00:00:00Z in milliseconds. */
  const Start2024: int := 1_704_067_200_000

  /** `n` hourly records of `coin`, the first at `first`. */
  function Hourly(coin: string, first: int, n: nat): (r: seq<RawFunding>)
    requires 0 <= first && first + n * Hour < TwoTo63
    ensures |r| == n
  {
    seq(n, i requires 0 <= i < n => RawFunding(coin, "0.0000125", "0.0003", first + i * Hour))
  }

  /** The records the fetcher writes for `Hourly(coin, first, n)`. */
  function HourlyRecords(coin: string, first: int, n: nat): (r: seq<FundingRecord>)
    ensures |r| == n
  {
    seq(n, i requires 0 <= i < n => FundingRecord(coin, first + i * Hour))
  }

  /** Every non-negative millisecond count before year 262143 is an instant. */
  lemma NonNegativeRepresentable(ms: int)
    requires 0 <= ms < EndDay * MsPerDay
    ensures Representable(ms)
  {
    DaysBeforeYearIncreasing(MinYear, 1970);
  }

  /** Hourly records in the date range convert one for one. */
  lemma HourlyConverts(coin: string, first: int, n: nat)
    requires 0 <= first && first + n * Hour < EndDay * MsPerDay
    ensures first + n * Hour < TwoTo63
    ensures ConvertPage(Hourly(coin, first, n)) == Ok(HourlyRecords(coin, first, n))
  {
    assert EndDay * MsPerDay < TwoTo63;
    var raws := Hourly(coin, first, n);
    forall i | 0 <= i < n
      ensures Convert(raws[i]) == Ok(HourlyRecords(coin, first, n)[i])
    {
      NonNegativeRepresentable(first + i * Hour);
    }
    ConvertPageSpec(raws);
    assert ConvertPage(raws).value == HourlyRecords(coin, first, n);
  }

  /** Number of hourly records the feed below holds for every asset. */
  const Total: nat := 1001

  function Min(a: int, b: int): int {
    if a < b then a else b
  }

  /** Index of the first feed record at or after `query`. */
  function FirstAtOrAfter(query: U64): nat {
    if query <= Start2024 then 0 else (query - Start2024 + Hour - 1) / Hour
  }

  /** A service holding `Total` hourly records of every asset from the start
      of 2024 on; a query returns the records at or after its bound, at most
      the cap of them, oldest first, as the real endpoint does. */
  function Feed(asset: string, query: U64): Fetched {
    var i := FirstAtOrAfter(query);
    if i >= Total then Page([])
    else Page(Hourly(asset, Start2024 + i * Hour, Min(ExpectedEndpointTotal, Total - i)))
  }

  lemma HourIndex(i: nat)
    ensures (i * Hour + Hour - 1) / Hour == i
  {
    assert i * Hour <= i * Hour + Hour - 1 < (i + 1) * Hour;
  }

  /** Querying the feed at its `i`-th record writes the next (at most) 500
      records, starting with that one. */
  lemma FeedTurn(asset: string, i: nat)
    requires i < Total
    ensures var n := Min(ExpectedEndpointTotal, Total - i);
      TakeStep(Feed, asset, Start2024 + i * Hour) ==
      Wrote(HourlyRecords(asset, Start2024 + i * Hour, n), n < ExpectedEndpointTotal)
  {
    var from := Start2024 + i * Hour;
    assert AsU64(from) == from;
    if i > 0 {
      HourIndex(i);
    }
    assert FirstAtOrAfter(from) == i;
    var n := Min(ExpectedEndpointTotal, Total - i);
    HourlyConverts(asset, from, n);
  }

  /** Pages of 500, 500 and 3 records: three queries, each from the last
      timestamp of the page before, and the run completes after the short
      third page. */
  lemma ThreePageTrace(asset: string)
    ensures Paginate(Feed, asset, Start2024, 10) ==
      Trace([Start2024, Start2024 + 499 * Hour, Start2024 + 998 * Hour],
            [HourlyRecords(asset, Start2024, 500),
             HourlyRecords(asset, Start2024 + 499 * Hour, 500),
             HourlyRecords(asset, Start2024 + 998 * Hour, 3)],
            Start2024 + 1000 * Hour, Complete)
  {
    var second, third := Start2024 + 499 * Hour, Start2024 + 998 * Hour;
    FeedTurn(asset, 0);
    FeedTurn(asset, 499);
    FeedTurn(asset, 998);
    assert LastTimestamp(HourlyRecords(asset, Start2024, 500)) == second;
    assert LastTimestamp(HourlyRecords(asset, second, 500)) == third;
    assert LastTimestamp(HourlyRecords(asset, third, 3)) == Start2024 + 1000 * Hour;
    PaginateContinues(Feed, asset, second, 8);
    PaginateContinues(Feed, asset, Start2024, 9);
  }

  lemma FlattenThree(p1: seq<FundingRecord>, p2: seq<FundingRecord>, p3: seq<FundingRecord>)
    ensures Flatten([p1, p2, p3]) == p1 + p2 + p3
  {
    FlattenCons(p3, []);
    FlattenCons(p2, [p3]);
    FlattenCons(p1, [p2, p3]);
    assert [p1, p2, p3] == [p1] + [p2, p3] && [p2, p3] == [p2] + [p3];
    assert p3 + [] == p3;
  }

  /** The three-page run writes 1003 records, and the record at each page
      boundary twice: positions 499 and 500, and 999 and 1000, hold the same
      record. */
  lemma ThreePageOutput(asset: string)
    ensures var out := Flatten(Paginate(Feed, asset, Start2024, 10).pages);
      |out| == 1003 && out[499] == out[500] && out[999] == out[1000] &&
      out[500] == FundingRecord(asset, Start2024 + 499 * Hour)
  {
    var p1 := HourlyRecords(asset, Start2024, 500);
    var p2 := HourlyRecords(asset, Start2024 + 499 * Hour, 500);
    var p3 := HourlyRecords(asset, Start2024 + 998 * Hour, 3);
    ThreePageTrace(asset);
    FlattenThree(p1, p2, p3);
    var out := p1 + p2 + p3;
    assert out[499] == p1[499] && out[500] == p2[0];
    assert out[999] == p2[499] && out[1000] == p3[0];
  }

  /** The cursor of a 2024 run starts at 2024-01-01T00:00:00Z. */
  lemma StartOf2024()
    ensures YearStart(2024) == Some(Start2024)
  {
    assert DaysBeforeYear(2024) == 19723;
  }

  /** A service with only two records of 2024 answers every query with them. */
  function TwoRecords(asset: string, query: U64): Fetched {
    Page([RawFunding(asset, "0.0000125", "0.0003", Start2024),
          RawFunding(asset, "0.0000125", "0.0003", Start2024 + Hour)])
  }

  /** Two records: one query from the start of the year, both records
      written, and the run completes because 2 is below the cap. */
  lemma TwoRecordBatch(fuel: nat)
    requires fuel > 0
    ensures RunAll(TwoRecords, ["BTC"], 2024, fuel) ==
      Batch(map["BTC" := [FundingRecord("BTC", Start2024), FundingRecord("BTC", Start2024 + Hour)]], Complete)
  {
    StartOf2024();
    var raws := TwoRecords("BTC", Start2024);
    NonNegativeRepresentable(Start2024);
    NonNegativeRepresentable(Start2024 + Hour);
    ConvertPageSpec(raws.records);
    var page := [FundingRecord("BTC", Start2024), FundingRecord("BTC", Start2024 + Hour)];
    assert TakeStep(TwoRecords, "BTC", Start2024) == Wrote(page, true);
    var t := Paginate(TwoRecords, "BTC", Start2024, fuel);
    assert t == Trace([Start2024], [page], Start2024 + Hour, Complete);
    FlattenCons(page, []);
    assert [page] + [] == [page] && page + [] == page;
    assert ["BTC"][..0] == [];
    assert RunAll(TwoRecords, [], 2024, fuel) == Batch(map[], Complete);
    assert RunAll(TwoRecords, ["BTC"], 2024, fuel) == RunAsset(TwoRecords, map[], "BTC", 2024, fuel);
  }

  /** A service that fills one page from the start of 2024 and then has
      nothing more. */
  function FullThenEmpty(asset: string, query: U64): Fetched {
    if query == Start2024 then Page(Hourly(asset, Start2024, ExpectedEndpointTotal)) else Page([])
  }

  /** A full page followed by an empty one: the first page stays written,
      the cursor stays on its last timestamp, and the second query panics. */
  lemma EmptyAfterFullPage(asset: string)
    ensures Paginate(FullThenEmpty, asset, Start2024, 5) ==
      Trace([Start2024, Start2024 + 499 * Hour], [HourlyRecords(asset, Start2024, 500)],
            Start2024 + 499 * Hour, Panicked(EmptyPage))
  {
    var page := HourlyRecords(asset, Start2024, 500);
    HourlyConverts(asset, Start2024, 500);
    assert TakeStep(FullThenEmpty, asset, Start2024) == Wrote(page, false);
    assert LastTimestamp(page) == Start2024 + 499 * Hour;
    EmptyPagePanics(FullThenEmpty, asset, Start2024 + 499 * Hour, 3);
    PaginateContinues(FullThenEmpty, asset, Start2024, 4);
  }

  /** The largest unsigned time reads as -1 ms through the signed cast and
      converts to 1969-12-31T23:59:59.999Z; 2^62 ms lies past year 262142
      and does not convert. */
  lemma ConversionEdges(coin: string)
    ensures Convert(RawFunding(coin, "0", "0", TwoTo64 - 1)) == Ok(FundingRecord(coin, -1))
    ensures Convert(RawFunding(coin, "0", "0", TwoTo63 / 2)) == Err(TimestampOutOfRange(TwoTo63 / 2))
  {
    DaysBeforeYearIncreasing(MinYear, 1970);
    DaysBeforeYearIncreasing(1970, MaxYear + 1);
  }

  /** A year past the date range stops the batch at its first asset, whose
      file is created but stays empty. */
  lemma YearOutOfRange(service: Service)
    ensures RunAll(service, ["BTC", "ETH"], MaxYear + 1, 10) ==
      Batch(map["BTC" := []], Panicked(InvalidYear(MaxYear + 1)))
  {
    var assets := ["BTC", "ETH"];
    assert assets[..1] == ["BTC"] && ["BTC"][..0] == [];
    RunAllStops(service, assets, MaxYear + 1, 10, 1);
  }

  /** A service whose every answer is a full page of records all stamped
      at the start of 2024. */
  function Stalled(asset: string, query: U64): Fetched {
    Page(seq(ExpectedEndpointTotal, _ => RawFunding(asset, "0", "0", Start2024)))
  }

  lemma StalledTurn(asset: string)
    ensures TakeStep(Stalled, asset, Start2024) ==
      Wrote(seq(ExpectedEndpointTotal, _ => FundingRecord(asset, Start2024)), false)
  {
    var raws := Stalled(asset, Start2024).records;
    NonNegativeRepresentable(Start2024);
    ConvertPageSpec(raws);
    assert ConvertPage(raws).value == seq(ExpectedEndpointTotal, _ => FundingRecord(asset, Start2024));
  }

  /** Against `Stalled`, a run from the start of 2024 never leaves that
      time: every query repeats it and only the fuel ends the run. */
  lemma StalledCursor(asset: string, fuel: nat)
    ensures var t := Paginate(Stalled, asset, Start2024, fuel);
      t.status == FuelExhausted && |t.queries| == fuel && t.cursor == Start2024 &&
      forall k :: 0 <= k < |t.queries| ==> t.queries[k] == Start2024
  {
    StalledTurn(asset);
    StallsForever(Stalled, asset, Start2024, fuel);
  }
}
