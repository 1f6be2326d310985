/** What the pagination loop of src/main.rs:55-74 guarantees about the
    queries it sends, the cursor it keeps, the pages it writes and when it
    stops, for every service. */
module PaginationProperties {
  import opened Calendar
  import opened Funding
  import opened Pagination

  function SumOfLengths(pages: seq<seq<FundingRecord>>): nat {
    if pages == [] then 0 else |pages[0]| + SumOfLengths(pages[1..])
  }

  /** One query per written page, plus one for a panic; never more than
      `fuel`, and all of it when the fuel runs out. */
  lemma {:induction false} QueryCount(service: Service, asset: string, from: int, fuel: nat)
    ensures var t := Paginate(service, asset, from, fuel);
      |t.queries| == |t.pages| + (if t.status.Panicked? then 1 else 0) &&
      |t.queries| <= fuel &&
      (t.status == FuelExhausted ==> |t.queries| == fuel)
    decreases fuel
  {
    if fuel > 0 {
      var step := TakeStep(service, asset, from);
      if step.Wrote? && !step.last {
        QueryCount(service, asset, LastTimestamp(step.page), fuel - 1);
        PaginateContinues(service, asset, from, fuel - 1);
      }
    }
  }

  /** Every written page is non-empty, and only the last page of a completed
      run is shorter than the cap. */
  lemma {:induction false} PagesFull(service: Service, asset: string, from: int, fuel: nat)
    ensures var t := Paginate(service, asset, from, fuel);
      forall k :: 0 <= k < |t.pages| ==>
        t.pages[k] != [] &&
        (k < |t.pages| - 1 || t.status != Complete ==> |t.pages[k]| >= ExpectedEndpointTotal)
    decreases fuel
  {
    if fuel > 0 {
      var step := TakeStep(service, asset, from);
      if step.Wrote? && !step.last {
        var next := LastTimestamp(step.page);
        PagesFull(service, asset, next, fuel - 1);
        PaginateContinues(service, asset, from, fuel - 1);
        var rest := Paginate(service, asset, next, fuel - 1);
        assert forall k :: 1 <= k < 1 + |rest.pages| ==> ([step.page] + rest.pages)[k] == rest.pages[k - 1];
      }
    }
  }

  /** The stopping rule: the run completes exactly when its last page is
      shorter than the cap, and it stops right after that page. */
  lemma StoppingRule(service: Service, asset: string, from: int, fuel: nat)
    ensures var t := Paginate(service, asset, from, fuel);
      (t.status == Complete <==> t.pages != [] && |t.pages[|t.pages| - 1]| < ExpectedEndpointTotal) &&
      (forall k :: 0 <= k < |t.pages| - 1 ==> |t.pages[k]| >= ExpectedEndpointTotal)
  {
    PagesFull(service, asset, from, fuel);
    CompleteHasPage(service, asset, from, fuel);
  }

  lemma {:induction false} CompleteHasPage(service: Service, asset: string, from: int, fuel: nat)
    ensures var t := Paginate(service, asset, from, fuel);
      t.status == Complete ==> t.pages != [] && |t.pages[|t.pages| - 1]| < ExpectedEndpointTotal
    decreases fuel
  {
    if fuel > 0 {
      var step := TakeStep(service, asset, from);
      if step.Wrote? && !step.last {
        var next := LastTimestamp(step.page);
        CompleteHasPage(service, asset, next, fuel - 1);
        PaginateContinues(service, asset, from, fuel - 1);
      }
    }
  }

  /** Every query after the first sends the last timestamp of the page
      before it. */
  predicate FollowsCursor(queries: seq<U64>, pages: seq<seq<FundingRecord>>) {
    |queries| <= |pages| + 1 &&
    forall k :: 0 <= k < |queries| - 1 ==>
      pages[k] != [] && queries[k + 1] == AsU64(LastTimestamp(pages[k]))
  }

  /** Each query sends the current cursor as the lower bound: the first one
      the start cursor, every later one the last timestamp of the page
      before it. */
  lemma {:induction false} QueriesFollowCursor(service: Service, asset: string, from: int, fuel: nat)
    ensures var t := Paginate(service, asset, from, fuel);
      (fuel > 0 ==> t.queries != [] && t.queries[0] == AsU64(from)) &&
      FollowsCursor(t.queries, t.pages)
    decreases fuel
  {
    if fuel > 0 {
      var step := TakeStep(service, asset, from);
      if step.Wrote? && !step.last {
        var next := LastTimestamp(step.page);
        QueriesFollowCursor(service, asset, next, fuel - 1);
        PaginateContinues(service, asset, from, fuel - 1);
        var rest := Paginate(service, asset, next, fuel - 1);
        FollowsCursorStep(AsU64(from), step.page, rest.queries, rest.pages);
      }
    }
  }

  /** Prepending one query and its page keeps the query/cursor chain. */
  lemma FollowsCursorStep(query: U64, page: seq<FundingRecord>, queries: seq<U64>, pages: seq<seq<FundingRecord>>)
    requires page != [] && FollowsCursor(queries, pages)
    requires queries != [] ==> queries[0] == AsU64(LastTimestamp(page))
    ensures FollowsCursor([query] + queries, [page] + pages)
  {
    var qs, ps := [query] + queries, [page] + pages;
    forall k | 0 <= k < |qs| - 1
      ensures ps[k] != [] && qs[k + 1] == AsU64(LastTimestamp(ps[k]))
    {
      if k == 0 {
        assert qs[1] == queries[0] && ps[0] == page;
      } else {
        var j := k - 1;
        assert 0 <= j < |queries| - 1;
        assert pages[j] != [] && queries[j + 1] == AsU64(LastTimestamp(pages[j]));
        assert qs[k + 1] == queries[j + 1] && ps[k] == pages[j];
      }
    }
  }

  /** The cursor ends on the last timestamp of the last page written, and on
      the start cursor when no page was written. */
  lemma {:induction false} CursorIsLastTimestamp(service: Service, asset: string, from: int, fuel: nat)
    ensures var t := Paginate(service, asset, from, fuel);
      (forall k :: 0 <= k < |t.pages| ==> t.pages[k] != []) &&
      t.cursor == (if t.pages == [] then from else LastTimestamp(t.pages[|t.pages| - 1]))
    decreases fuel
  {
    PagesFull(service, asset, from, fuel);
    if fuel > 0 {
      var step := TakeStep(service, asset, from);
      if step.Wrote? && !step.last {
        var next := LastTimestamp(step.page);
        CursorIsLastTimestamp(service, asset, next, fuel - 1);
        PaginateContinues(service, asset, from, fuel - 1);
      }
    }
  }

  /** An empty page panics before anything of it is written and before the
      cursor moves. */
  lemma EmptyPagePanics(service: Service, asset: string, from: int, fuel: nat)
    requires FetchPage(service, asset, from) == Ok([])
    ensures Paginate(service, asset, from, fuel + 1) == Trace([AsU64(from)], [], from, Panicked(EmptyPage))
  {
  }

  /** The loop has no exit of its own when a full page ends on the time it
      was queried from: the cursor never moves, every turn sends the same
      query and writes the same page again, and only the fuel ends the run. */
  lemma {:induction false} StallsForever(service: Service, asset: string, from: int, fuel: nat)
    requires TakeStep(service, asset, from).Wrote? && !TakeStep(service, asset, from).last
    requires LastTimestamp(TakeStep(service, asset, from).page) == from
    ensures var t := Paginate(service, asset, from, fuel);
      t.status == FuelExhausted && |t.queries| == fuel && t.cursor == from &&
      forall k :: 0 <= k < |t.queries| ==> t.queries[k] == AsU64(from)
    decreases fuel
  {
    if fuel > 0 {
      StallsForever(service, asset, from, fuel - 1);
      PaginateContinues(service, asset, from, fuel - 1);
    }
  }

  lemma {:induction false} FlattenLength(pages: seq<seq<FundingRecord>>)
    ensures |Flatten(pages)| == SumOfLengths(pages)
  {
    if pages != [] {
      FlattenLength(pages[1..]);
    }
  }

  /** The output holds every page whole and in order: page `k` occupies the
      slice that starts after the records of the pages before it. Nothing
      is filtered, reordered or deduplicated. */
  lemma {:induction false} PageInOutput(pages: seq<seq<FundingRecord>>, k: nat)
    requires k < |pages|
    ensures SumOfLengths(pages[..k]) + |pages[k]| <= |Flatten(pages)|
    ensures Flatten(pages)[SumOfLengths(pages[..k])..SumOfLengths(pages[..k]) + |pages[k]|] == pages[k]
    decreases k
  {
    FlattenLength(pages[1..]);
    if k > 0 {
      PageInOutput(pages[1..], k - 1);
      assert pages[..k][0] == pages[0];
      assert pages[..k][1..] == pages[1..][..k - 1];
    }
  }

  /** Page `k` is the converted answer of the service to query `k`. */
  predicate AnswersQueries(service: Service, asset: string, queries: seq<U64>, pages: seq<seq<FundingRecord>>) {
    |pages| <= |queries| &&
    forall k :: 0 <= k < |pages| ==>
      service(asset, queries[k]).Page? && ConvertPage(service(asset, queries[k]).records) == Ok(pages[k])
  }

  /** Every written page is exactly the service's answer to the query sent
      for it, converted record by record: nothing is dropped, added or
      reordered between the service and the output. */
  lemma {:induction false} PagesAreAnswers(service: Service, asset: string, from: int, fuel: nat)
    ensures var t := Paginate(service, asset, from, fuel);
      AnswersQueries(service, asset, t.queries, t.pages)
    decreases fuel
  {
    if fuel > 0 {
      var step := TakeStep(service, asset, from);
      if step.Wrote? && !step.last {
        var next := LastTimestamp(step.page);
        PagesAreAnswers(service, asset, next, fuel - 1);
        PaginateContinues(service, asset, from, fuel - 1);
        var rest := Paginate(service, asset, next, fuel - 1);
        AnswersQueriesStep(service, asset, AsU64(from), step.page, rest.queries, rest.pages);
      }
    }
  }

  /** Prepending a query and the converted answer to it keeps the pairing. */
  lemma AnswersQueriesStep(service: Service, asset: string, query: U64, page: seq<FundingRecord>,
                           queries: seq<U64>, pages: seq<seq<FundingRecord>>)
    requires service(asset, query).Page? && ConvertPage(service(asset, query).records) == Ok(page)
    requires AnswersQueries(service, asset, queries, pages)
    ensures AnswersQueries(service, asset, [query] + queries, [page] + pages)
  {
    var qs, ps := [query] + queries, [page] + pages;
    forall k | 0 <= k < |ps|
      ensures service(asset, qs[k]).Page? && ConvertPage(service(asset, qs[k]).records) == Ok(ps[k])
    {
      if k > 0 {
        var j := k - 1;
        assert service(asset, queries[j]).Page? && ConvertPage(service(asset, queries[j]).records) == Ok(pages[j]);
        assert qs[k] == queries[j] && ps[k] == pages[j];
      }
    }
  }

  lemma {:induction false} SumOfLengthsSnoc(pages: seq<seq<FundingRecord>>, k: nat)
    requires k < |pages|
    ensures SumOfLengths(pages[..k + 1]) == SumOfLengths(pages[..k]) + |pages[k]|
    decreases k
  {
    if k > 0 {
      SumOfLengthsSnoc(pages[1..], k - 1);
      assert pages[..k + 1][1..] == pages[1..][..k];
      assert pages[..k][1..] == pages[1..][..k - 1];
    }
  }

  /** In the concatenation of non-empty pages, the last record of page
      `k` is directly followed by the first record of page `k + 1`. */
  lemma PageBoundary(pages: seq<seq<FundingRecord>>, k: nat)
    requires k + 1 < |pages| && pages[k] != [] && pages[k + 1] != []
    ensures var out, s := Flatten(pages), SumOfLengths(pages[..k + 1]);
      0 < s < |out| && out[s - 1] == pages[k][|pages[k]| - 1] && out[s] == pages[k + 1][0]
  {
    PageInOutput(pages, k);
    PageInOutput(pages, k + 1);
    SumOfLengthsSnoc(pages, k);
    var out, s := Flatten(pages), SumOfLengths(pages[..k + 1]);
    var before := SumOfLengths(pages[..k]);
    assert out[s - 1] == out[before..s][|pages[k]| - 1];
    assert out[s] == out[s..s + |pages[k + 1]|][0];
  }

  /** At the boundary between written pages `k` and `k + 1`, the output
      holds the last record of page `k` directly followed by the first
      record of page `k + 1`. So when the service answers the next query
      with the boundary record again, that record is written twice in a
      row. */
  lemma BoundaryWrittenTwice(service: Service, asset: string, from: int, fuel: nat, k: nat)
    requires k + 1 < |Paginate(service, asset, from, fuel).pages|
    ensures var t := Paginate(service, asset, from, fuel);
      var out, s := Flatten(t.pages), SumOfLengths(t.pages[..k + 1]);
      t.pages[k] != [] && t.pages[k + 1] != [] && 0 < s < |out| &&
      out[s - 1] == t.pages[k][|t.pages[k]| - 1] && out[s] == t.pages[k + 1][0] &&
      (t.pages[k + 1][0] == t.pages[k][|t.pages[k]| - 1] ==> out[s - 1] == out[s])
  {
    var pages := Paginate(service, asset, from, fuel).pages;
    PagesFull(service, asset, from, fuel);
    assert pages[k] != [] && pages[k + 1] != [];
    PageBoundary(pages, k);
  }

  /** A service that answers every query below 2^63 with records at or after
      the queried time, in ascending time order, all below 2^63 ms. */
  predicate AnswersAscending(answer: Fetched, query: U64) {
    answer.Page? ==>
      (forall i :: 0 <= i < |answer.records| ==> query <= answer.records[i].time < TwoTo63) &&
      (forall i, j :: 0 <= i < j < |answer.records| ==> answer.records[i].time <= answer.records[j].time)
  }

  ghost predicate AscendingService(service: Service) {
    forall asset: string, query: U64 :: query < TwoTo63 ==> AnswersAscending(service(asset, query), query)
  }

  predicate Ascending(s: seq<FundingRecord>) {
    forall i, j :: 0 <= i < j < |s| ==> s[i].timestamp <= s[j].timestamp
  }

  predicate AllFrom(s: seq<FundingRecord>, from: int) {
    forall i :: 0 <= i < |s| ==> from <= s[i].timestamp
  }

  /** A page fetched from an ascending service converts to records whose
      timestamps are the service's times. */
  lemma FetchedPageAscending(service: Service, asset: string, from: int, page: seq<FundingRecord>)
    requires AscendingService(service) && 0 <= from < TwoTo63
    requires FetchPage(service, asset, from) == Ok(page)
    ensures Ascending(page) && AllFrom(page, from)
    ensures forall i :: 0 <= i < |page| ==> page[i].timestamp < TwoTo63
  {
    var answer := service(asset, AsU64(from));
    assert AnswersAscending(answer, AsU64(from));
    ConvertPageSpec(answer.records);
    forall i | 0 <= i < |page|
      ensures page[i].timestamp == answer.records[i].time
    {
      assert Convert(answer.records[i]) == Ok(page[i]);
    }
  }

  /** Two ascending runs of records, the second starting no earlier than
      the last of the first, concatenate to an ascending run. */
  lemma AscendingConcat(page: seq<FundingRecord>, rest: seq<FundingRecord>)
    requires page != [] && Ascending(page) && Ascending(rest)
    requires AllFrom(rest, LastTimestamp(page))
    ensures Ascending(page + rest)
  {
    var out := page + rest;
    forall i, j | 0 <= i < j < |out| ensures out[i].timestamp <= out[j].timestamp {
      if i < |page| <= j {
        assert out[i].timestamp <= LastTimestamp(page);
        assert out[j] == rest[j - |page|];
      }
    }
  }

  /** Against an ascending service the output is in ascending time order and
      starts no earlier than the start cursor; the boundary record written
      twice keeps this order, as its two copies have equal timestamps. */
  lemma {:induction false} OutputAscending(service: Service, asset: string, from: int, fuel: nat)
    requires AscendingService(service) && 0 <= from < TwoTo63
    ensures var out := Flatten(Paginate(service, asset, from, fuel).pages);
      Ascending(out) && AllFrom(out, from)
    decreases fuel
  {
    if fuel > 0 {
      var step := TakeStep(service, asset, from);
      if step.Wrote? {
        var page := step.page;
        FetchedPageAscending(service, asset, from, page);
        if step.last {
          FlattenCons(page, []);
          assert page + [] == page;
        } else {
          var next := LastTimestamp(page);
          OutputAscending(service, asset, next, fuel - 1);
          PaginateContinues(service, asset, from, fuel - 1);
          var rest := Paginate(service, asset, next, fuel - 1);
          FlattenCons(page, rest.pages);
          AscendingConcat(page, Flatten(rest.pages));
        }
      }
    }
  }
}

/** What the run over all assets (src/main.rs:44-77) leaves behind. */
module BatchProperties {
  import opened Calendar
  import opened Pagination

  /** A completed batch has one file per configured asset, and each holds
      exactly the pages of a fresh run of that asset from 1 January of the
      year: no cursor or record carries over from one asset to the next. */
  lemma {:induction false} CompletedBatchFiles(service: Service, assets: seq<string>, year: int, fuel: nat)
    ensures var b := RunAll(service, assets, year, fuel);
      b.status == Complete ==>
        (assets != [] ==> YearStart(year).Some?) &&
        (forall a :: a in b.files <==> a in assets) &&
        (forall a :: a in b.files ==>
           b.files[a] == Flatten(Paginate(service, a, YearStart(year).value, fuel).pages))
    decreases |assets|
  {
    if assets != [] {
      var prefix := assets[..|assets| - 1];
      CompletedBatchFiles(service, prefix, year, fuel);
      assert assets == prefix + [assets[|assets| - 1]];
    }
  }
}
