/** The fetcher's per-asset pagination loop and the run over all configured
    assets (src/main.rs:36, 44-77). The funding-history service is a
    function from (asset, lower time bound in milliseconds) to a page. */
module Pagination {
  import opened Calendar
  import opened Funding

  /** Page cap of the service: a page shorter than this ends the asset. */
  const ExpectedEndpointTotal: nat := 500

  /** Answer of one funding-history request. */
  datatype Fetched = Page(records: seq<RawFunding>) | Unavailable

  /** The service, queried with an asset and an inclusive lower time bound
      and no end time. */
  type Service = (string, U64) -> Fetched

  datatype Status = Complete | Panicked(failure: Failure) | FuelExhausted

  /** What one asset's run did: the lower bounds it queried, the converted
      pages it wrote, its final cursor (milliseconds) and how it ended. */
  datatype Trace = Trace(queries: seq<U64>, pages: seq<seq<FundingRecord>>, cursor: int, status: Status)

  /** Concatenation of pages, in order. */
  function Flatten(pages: seq<seq<FundingRecord>>): seq<FundingRecord> {
    if pages == [] then [] else pages[0] + Flatten(pages[1..])
  }

  lemma FlattenCons(page: seq<FundingRecord>, pages: seq<seq<FundingRecord>>)
    ensures Flatten([page] + pages) == page + Flatten(pages)
  {
    assert ([page] + pages)[1..] == pages;
  }

  lemma ConcatAssoc<T>(a: seq<T>, b: seq<T>, c: seq<T>)
    ensures a + (b + c) == (a + b) + c
  {
  }

  function LastTimestamp(page: seq<FundingRecord>): int
    requires page != []
  {
    page[|page| - 1].timestamp
  }

  /** The request and conversion of src/main.rs:56-62: queries the service
      with the cursor as an unsigned millisecond count and no end time, and
      converts the page. */
  function FetchPage(service: Service, asset: string, from: int): Result<seq<FundingRecord>> {
    match service(asset, AsU64(from))
    case Unavailable => Err(ServiceError)
    case Page(raws) => ConvertPage(raws)
  }

  /** What one turn of the loop (src/main.rs:56-73) does: it panics, or it
      writes a non-empty page and either ends the run or goes on. */
  datatype Step = Halt(failure: Failure) | Wrote(page: seq<FundingRecord>, last: bool)

  /** One turn with cursor `from`: fetch a page, panic on an empty page, and
      end the run when the page is shorter than the cap. */
  function TakeStep(service: Service, asset: string, from: int): Step {
    match FetchPage(service, asset, from)
    case Err(e) => Halt(e)
    case Ok(history) =>
      if |history| == 0 then Halt(EmptyPage)
      else Wrote(history, |history| < ExpectedEndpointTotal)
  }

  /** The loop of src/main.rs:55-74 started with cursor `from`, cut off after
      `fuel` queries: each turn queries with the cursor, moves the cursor to
      the last timestamp of the page it wrote, and the run goes on while the
      pages are full. */
  function Paginate(service: Service, asset: string, from: int, fuel: nat): Trace
    decreases fuel
  {
    if fuel == 0 then Trace([], [], from, FuelExhausted)
    else
      var query := AsU64(from);
      match TakeStep(service, asset, from)
      case Halt(e) => Trace([query], [], from, Panicked(e))
      case Wrote(page, last) =>
        if last then Trace([query], [page], LastTimestamp(page), Complete)
        else
          var rest := Paginate(service, asset, LastTimestamp(page), fuel - 1);
          Trace([query] + rest.queries, [page] + rest.pages, rest.cursor, rest.status)
  }

  /** After a turn that wrote a full page, the run goes on from the page's
      last timestamp with one query fewer. */
  lemma PaginateContinues(service: Service, asset: string, from: int, fuel: nat)
    requires TakeStep(service, asset, from).Wrote? && !TakeStep(service, asset, from).last
    ensures var page := TakeStep(service, asset, from).page;
      var rest := Paginate(service, asset, LastTimestamp(page), fuel);
      Paginate(service, asset, from, fuel + 1) ==
      Trace([AsU64(from)] + rest.queries, [page] + rest.pages, rest.cursor, rest.status)
  {
  }

  /** One asset's fetch: the mutable cursor `from` and the records written
      to the asset's output so far. `requests` records every lower bound
      sent to the service. */
  class AssetRun {
    const asset: string
    var from: int
    var output: seq<FundingRecord>
    ghost var requests: seq<U64>

    constructor (asset: string, start: int)
      ensures this.asset == asset && from == start
      ensures output == [] && requests == []
    {
      this.asset := asset;
      from := start;
      output := [];
      requests := [];
    }

    /** `history.iter().for_each(|h| csv.serialize(h))` (src/main.rs:66-68):
        appends the page to the output one record at a time. */
    method WritePage(page: seq<FundingRecord>)
      modifies this`output
      ensures output == old(output) + page
    {
      ghost var before := output;
      for k := 0 to |page|
        invariant output == before + page[..k]
      {
        assert page[..k + 1] == page[..k] + [page[k]];
        output := output + [page[k]];
      }
      assert page[..|page|] == page;
    }

    /** The body of the loop (src/main.rs:56-73): queries with the cursor,
        panics on a failed request, a record that does not convert or an
        empty page, and otherwise moves the cursor to the page's last
        timestamp and then writes the page. */
    method Turn(service: Service) returns (step: Step)
      modifies this
      ensures step == TakeStep(service, asset, old(from))
      ensures requests == old(requests) + [AsU64(old(from))]
      ensures step.Halt? ==> from == old(from) && output == old(output)
      ensures step.Wrote? ==> from == LastTimestamp(step.page) && output == old(output) + step.page
    {
      requests := requests + [AsU64(from)];
      var fetched := FetchPage(service, asset, from);
      if fetched.Err? {
        return Halt(fetched.failure);
      }
      var history := fetched.value;
      if |history| == 0 {
        return Halt(EmptyPage);
      }
      from := history[|history| - 1].timestamp;
      WritePage(history);
      step := Wrote(history, |history| < ExpectedEndpointTotal);
    }

    /** Runs the loop of src/main.rs:55-74 for at most `fuel` queries. */
    method Run(service: Service, fuel: nat) returns (status: Status)
      modifies this
      ensures var t := Paginate(service, asset, old(from), fuel);
        status == t.status && from == t.cursor &&
        output == old(output) + Flatten(t.pages) &&
        requests == old(requests) + t.queries
    {
      ghost var whole := Paginate(service, asset, from, fuel);
      ghost var rest := whole;
      ghost var output0, requests0 := output, requests;
      var budget: nat := fuel;
      while budget > 0
        invariant budget <= fuel
        invariant rest == Paginate(service, asset, from, budget)
        invariant whole.status == rest.status && whole.cursor == rest.cursor
        invariant output0 + Flatten(whole.pages) == output + Flatten(rest.pages)
        invariant requests0 + whole.queries == requests + rest.queries
        decreases budget
      {
        ghost var previous, query, written, requested := from, AsU64(from), output, requests;
        var step := Turn(service);
        if step.Halt? {
          assert output + Flatten(rest.pages) == output;
          return Panicked(step.failure);
        }
        if step.last {
          FlattenCons(step.page, []);
          assert step.page + [] == step.page;
          return Complete;
        }
        budget := budget - 1;
        PaginateContinues(service, asset, previous, budget);
        ghost var next := Paginate(service, asset, from, budget);
        FlattenCons(step.page, next.pages);
        ConcatAssoc(written, step.page, Flatten(next.pages));
        ConcatAssoc(requested, [query], next.queries);
        rest := next;
      }
      status := FuelExhausted;
    }
  }

  /** Output files by asset name, and how the process ended. */
  datatype Batch = Batch(files: map<string, seq<FundingRecord>>, status: Status)

  /** The `for asset in assets` loop of src/main.rs:44-77: each asset's file
      is created empty, its cursor set to the start of `year`, and its pages
      written; the first asset whose run does not complete ends the process. */
  function RunAll(service: Service, assets: seq<string>, year: int, fuel: nat): Batch
    decreases |assets|
  {
    if assets == [] then Batch(map[], Complete)
    else
      var done := RunAll(service, assets[..|assets| - 1], year, fuel);
      if done.status != Complete then done
      else RunAsset(service, done.files, assets[|assets| - 1], year, fuel)
  }

  /** One iteration of the `for asset` loop (src/main.rs:45-76), given the
      files written so far. */
  function RunAsset(service: Service, files: map<string, seq<FundingRecord>>, asset: string, year: int, fuel: nat): Batch {
    match YearStart(year)
    case None => Batch(files[asset := []], Panicked(InvalidYear(year)))
    case Some(start) =>
      var t := Paginate(service, asset, start, fuel);
      Batch(files[asset := Flatten(t.pages)], t.status)
  }

  /** Once an asset's run has failed, no later asset changes anything. */
  lemma {:induction false} RunAllStops(service: Service, assets: seq<string>, year: int, fuel: nat, i: nat)
    requires i <= |assets|
    requires RunAll(service, assets[..i], year, fuel).status != Complete
    ensures RunAll(service, assets, year, fuel) == RunAll(service, assets[..i], year, fuel)
    decreases |assets| - i
  {
    if i < |assets| {
      assert assets[..i + 1][..i] == assets[..i];
      RunAllStops(service, assets, year, fuel, i + 1);
    } else {
      assert assets[..i] == assets;
    }
  }

  /** Fetches every asset in order, one fresh run per asset. */
  method FetchAll(service: Service, assets: seq<string>, year: int, fuel: nat)
    returns (files: map<string, seq<FundingRecord>>, status: Status)
    ensures Batch(files, status) == RunAll(service, assets, year, fuel)
  {
    files, status := map[], Complete;
    for i := 0 to |assets|
      invariant Batch(files, status) == RunAll(service, assets[..i], year, fuel)
      invariant status == Complete
    {
      assert assets[..i + 1][..i] == assets[..i];
      ghost var expected := RunAsset(service, files, assets[i], year, fuel);
      assert RunAll(service, assets[..i + 1], year, fuel) == expected;
      var asset := assets[i];
      files := files[asset := []];
      var start := YearStart(year);
      if start.None? {
        status := Panicked(InvalidYear(year));
        RunAllStops(service, assets, year, fuel, i + 1);
        return;
      }
      var run := new AssetRun(asset, start.value);
      assert run.asset == asset && run.from == start.value && run.output == [];
      status := run.Run(service, fuel);
      ghost var t := Paginate(service, asset, start.value, fuel);
      assert run.output == Flatten(t.pages) && status == t.status;
      files := files[asset := run.output];
      assert Batch(files, status) == expected;
      if status != Complete {
        RunAllStops(service, assets, year, fuel, i + 1);
        return;
      }
    }
    assert assets[..|assets|] == assets;
  }
}
