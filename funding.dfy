/** Funding-history records as the market-data service sends them and as the
    fetcher writes them, and the conversion between the two
    (src/main.rs:14-23). */
module Funding {
  import opened Calendar

  const TwoTo63: int := 0x8000_0000_0000_0000
  const TwoTo64: int := 0x1_0000_0000_0000_0000

  type U64 = t: int | 0 <= t < TwoTo64

  /** Every way the fetcher can panic on an `unwrap`. */
  datatype Failure =
    | ServiceError                      // the funding-history request failed
    | TimestampOutOfRange(time: U64)    // `from_timestamp_millis` gave no instant
    | EmptyPage                         // `last()` of an empty page
    | InvalidYear(year: int)            // 1 January of the year is not a date

  datatype Result<T> = Ok(value: T) | Err(failure: Failure)

  /** A record as the service returns it; the two rates are decimal text. */
  datatype RawFunding = RawFunding(coin: string, fundingRate: string, premium: string, time: U64)

  /** A record as the fetcher writes it; `timestamp` is the instant in
      milliseconds since the epoch. */
  datatype FundingRecord = FundingRecord(coin: string, timestamp: int)

  /** The `as i64` cast of an unsigned 64-bit value: two's complement. */
  function AsI64(t: U64): (x: int)
    ensures -TwoTo63 <= x < TwoTo63
    ensures x >= 0 <==> t < TwoTo63
    ensures x == t || x == t - TwoTo64
  {
    if t < TwoTo63 then t else t - TwoTo64
  }

  /** The `as u64` cast of a signed value: reduction modulo 2^64. */
  function AsU64(x: int): (t: U64)
    ensures -TwoTo63 <= x < TwoTo63 ==> (t < TwoTo63 <==> x >= 0)
    ensures 0 <= x < TwoTo64 ==> t == x
    ensures -TwoTo63 <= x < 0 ==> t == x + TwoTo64
  {
    x % TwoTo64
  }

  /** The two casts undo each other on their 64-bit domains. */
  lemma CastsRoundTrip(t: U64, x: int)
    requires -TwoTo63 <= x < TwoTo63
    ensures AsU64(AsI64(t)) == t
    ensures AsI64(AsU64(x)) == x
  {
    if x < 0 {
      assert AsU64(x) == x + TwoTo64;
    }
  }

  /** `FundingHistoryResponse::from`: copies the coin and turns the service's
      millisecond time into an instant, failing when that instant is out of
      range. */
  function Convert(raw: RawFunding): (r: Result<FundingRecord>)
    ensures r.Ok? <==> Representable(AsI64(raw.time))
    ensures r.Err? ==> r.failure == TimestampOutOfRange(raw.time)
    ensures r.Ok? ==> r.value.coin == raw.coin
    ensures r.Ok? ==> AsU64(r.value.timestamp) == raw.time
    ensures r.Ok? && raw.time < TwoTo63 ==> r.value.timestamp == raw.time
    ensures r.Ok? ==> -TwoTo63 <= r.value.timestamp < TwoTo63 && Representable(r.value.timestamp)
  {
    var ms := AsI64(raw.time);
    CastsRoundTrip(raw.time, ms);
    if Representable(ms) then Ok(FundingRecord(raw.coin, ms))
    else Err(TimestampOutOfRange(raw.time))
  }

  predicate Convertible(raw: RawFunding) {
    Convert(raw).Ok?
  }

  /** `.iter().map(FundingHistoryResponse::from).collect()`: converts a page
      in order and fails at its first record that does not convert. */
  function ConvertPage(raws: seq<RawFunding>): (r: Result<seq<FundingRecord>>)
    ensures r.Ok? ==> |r.value| == |raws|
  {
    if raws == [] then Ok([])
    else
      match Convert(raws[0])
      case Err(e) => Err(e)
      case Ok(head) =>
        match ConvertPage(raws[1..])
        case Err(e) => Err(e)
        case Ok(tail) => Ok([head] + tail)
  }

  /** A page converts exactly when each of its records does; then each
      record is converted in place, and otherwise the failure is that of the
      first record that does not convert. */
  lemma {:induction false} ConvertPageSpec(raws: seq<RawFunding>)
    ensures ConvertPage(raws).Ok? <==> forall i :: 0 <= i < |raws| ==> Convertible(raws[i])
    ensures ConvertPage(raws).Ok? ==>
      forall i :: 0 <= i < |raws| ==> Convert(raws[i]) == Ok(ConvertPage(raws).value[i])
    ensures ConvertPage(raws).Err? ==>
      exists i :: 0 <= i < |raws| && Convert(raws[i]) == Err(ConvertPage(raws).failure)
                  && forall j :: 0 <= j < i ==> Convertible(raws[j])
  {
    if raws != [] {
      ConvertPageSpec(raws[1..]);
      if Convert(raws[0]).Ok? && ConvertPage(raws[1..]).Err? {
        var i :| 0 <= i < |raws[1..]| && Convert(raws[1..][i]) == Err(ConvertPage(raws[1..]).failure)
                 && forall j :: 0 <= j < i ==> Convertible(raws[1..][j]);
        assert Convert(raws[i + 1]) == Err(ConvertPage(raws).failure);
        assert forall j :: 0 <= j < i + 1 ==> Convertible(raws[j]) by {
          forall j | 0 <= j < i + 1 ensures Convertible(raws[j]) {
            if j > 0 { assert raws[j] == raws[1..][j - 1]; }
          }
        }
      }
    }
  }
}
