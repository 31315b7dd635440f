/**
 * internal/api/yahoo.go: fetching chart data for tickers. The HTTP round
 * trip is an oracle `net` from (ticker, time range) to the reply; a model
 * of the request URL, the client timeout and the JSON decoder is not part
 * of this file, only how their outcomes are classified and aggregated.
 */
module Api {
  import opened Wrappers

  /** A decoded chart document; its fields are not inspected here. */
  datatype ChartResponse = ChartResponse(document: string)

  /**
   * What one request produces: the request could not be built, the
   * transport failed, or a reply with a status code and the body decoded
   * (`None` when decoding failed).
   */
  datatype Reply =
    | BadRequest
    | TransportFailure
    | HttpReply(status: int, body: Option<ChartResponse>)

  datatype FetchError =
    | RequestError          // "error creating request"
    | TransportError        // "error fetching data"
    | StatusError(code: int) // "unexpected status code"
    | DecodeError           // "error decoding response"

  const StatusOK: int := 200

  /** The time range actually requested: "1d" when none is given. */
  function EffectiveRange(timeRange: string): (r: string)
    ensures timeRange == "" ==> r == "1d"
    ensures timeRange != "" ==> r == timeRange
  {
    if timeRange == "" then "1d" else timeRange
  }

  /** The outcome FetchStockData reports for one reply. */
  function Classify(reply: Reply): Result<ChartResponse, FetchError> {
    match reply
    case BadRequest => Err(RequestError)
    case TransportFailure => Err(TransportError)
    case HttpReply(status, body) =>
      if status != StatusOK then Err(StatusError(status))
      else if body.None? then Err(DecodeError)
      else Ok(body.value)
  }

  /** FetchStockData's outcome for `ticker`. */
  function Fetch(net: (string, string) -> Reply, ticker: string, timeRange: string): Result<ChartResponse, FetchError> {
    Classify(net(ticker, EffectiveRange(timeRange)))
  }

  /**
   * A fetch succeeds exactly on a 200 reply whose body decodes, and then
   * returns that body; any other status is reported with its code.
   */
  lemma FetchOutcome(net: (string, string) -> Reply, ticker: string, timeRange: string)
    ensures var reply := net(ticker, EffectiveRange(timeRange));
      && (Fetch(net, ticker, timeRange).Ok? <==> reply.HttpReply? && reply.status == StatusOK && reply.body.Some?)
      && (Fetch(net, ticker, timeRange).Ok? ==> Fetch(net, ticker, timeRange).value == reply.body.value)
      && (reply.HttpReply? && reply.status != StatusOK ==> Fetch(net, ticker, timeRange) == Err(StatusError(reply.status)))
  {
  }

  /** Asking for no time range is asking for one day. */
  lemma EmptyRangeIsOneDay(net: (string, string) -> Reply, ticker: string)
    ensures Fetch(net, ticker, "") == Fetch(net, ticker, "1d")
  {
  }

  /** FetchStockData: one request for `ticker`, with the default range applied first. */
  method FetchStockData(net: (string, string) -> Reply, ticker: string, timeRange: string)
    returns (r: Result<ChartResponse, FetchError>)
    ensures r == Fetch(net, ticker, timeRange)
  {
    var range := timeRange;
    if range == "" {
      range := "1d";
    }
    var reply := net(ticker, range);
    match reply {
      case BadRequest =>
        return Err(RequestError);
      case TransportFailure =>
        return Err(TransportError);
      case HttpReply(status, body) =>
        if status != StatusOK {
          return Err(StatusError(status));
        }
        if body.None? {
          return Err(DecodeError);
        }
        return Ok(body.value);
    }
  }

  /** The successful fetches of `tickers`, in order. */
  function Successes(net: (string, string) -> Reply, tickers: seq<string>, timeRange: string): seq<ChartResponse> {
    if tickers == [] then []
    else
      var last := Fetch(net, tickers[|tickers| - 1], timeRange);
      Successes(net, tickers[..|tickers| - 1], timeRange) + (if last.Ok? then [last.value] else [])
  }

  /** There are no more results than tickers. */
  lemma {:induction false} SuccessesBound(net: (string, string) -> Reply, tickers: seq<string>, timeRange: string)
    ensures |Successes(net, tickers, timeRange)| <= |tickers|
  {
    if tickers != [] {
      SuccessesBound(net, tickers[..|tickers| - 1], timeRange);
    }
  }

  /**
   * The batch splits: the results for `a + b` are those for `a` followed by
   * those for `b`, so a failure in `a` does not affect what `b` yields.
   */
  lemma {:induction false} SuccessesAppend(net: (string, string) -> Reply, a: seq<string>, b: seq<string>, timeRange: string)
    ensures Successes(net, a + b, timeRange) == Successes(net, a, timeRange) + Successes(net, b, timeRange)
    decreases |b|
  {
    if b == [] {
      assert a + b == a;
    } else {
      var binit := b[..|b| - 1];
      SuccessesAppend(net, a, binit, timeRange);
      assert (a + b)[..|a + b| - 1] == a + binit;
      assert (a + b)[|a + b| - 1] == b[|b| - 1];
    }
  }

  /** One ticker contributes its response when it succeeds and nothing when it fails. */
  lemma SuccessesSingle(net: (string, string) -> Reply, ticker: string, timeRange: string)
    ensures var f := Fetch(net, ticker, timeRange);
      Successes(net, [ticker], timeRange) == if f.Ok? then [f.value] else []
  {
    assert [ticker][..0] == [];
  }

  /** Every result is the response of some successfully fetched ticker, and every success is kept. */
  lemma {:induction false} SuccessesMembers(net: (string, string) -> Reply, tickers: seq<string>, timeRange: string)
    ensures forall r :: r in Successes(net, tickers, timeRange) <==>
      exists i :: 0 <= i < |tickers| && Fetch(net, tickers[i], timeRange) == Ok(r)
  {
    if tickers != [] {
      var init := tickers[..|tickers| - 1];
      SuccessesMembers(net, init, timeRange);
      forall r ensures r in Successes(net, tickers, timeRange) <==>
        exists i :: 0 <= i < |tickers| && Fetch(net, tickers[i], timeRange) == Ok(r)
      {
        if exists i :: 0 <= i < |tickers| && Fetch(net, tickers[i], timeRange) == Ok(r) {
          var i :| 0 <= i < |tickers| && Fetch(net, tickers[i], timeRange) == Ok(r);
          if i < |init| {
            assert init[i] == tickers[i];
          }
        }
        if r in Successes(net, init, timeRange) {
          var i :| 0 <= i < |init| && Fetch(net, init[i], timeRange) == Ok(r);
          assert tickers[i] == init[i];
        }
      }
    }
  }

  /** A failing ticker between two good ones: the batch holds the two good responses. */
  lemma MiddleFailureSkipped(net: (string, string) -> Reply, a: string, b: string, c: string, timeRange: string)
    requires Fetch(net, a, timeRange).Ok? && Fetch(net, b, timeRange).Err? && Fetch(net, c, timeRange).Ok?
    ensures Successes(net, [a, b, c], timeRange) == [Fetch(net, a, timeRange).value, Fetch(net, c, timeRange).value]
  {
    SuccessesAppend(net, [a], [b, c], timeRange);
    SuccessesAppend(net, [b], [c], timeRange);
    SuccessesSingle(net, a, timeRange);
    SuccessesSingle(net, b, timeRange);
    SuccessesSingle(net, c, timeRange);
    assert [a] + [b, c] == [a, b, c] && [b] + [c] == [b, c];
  }

  /**
   * FetchMultipleStocks: fetches each ticker in turn, skipping failures.
   * Its error result is always `None`.
   */
  method FetchMultipleStocks(net: (string, string) -> Reply, tickers: seq<string>, timeRange: string)
    returns (responses: seq<ChartResponse>, err: Option<FetchError>)
    ensures responses == Successes(net, tickers, timeRange)
    ensures err == None
  {
    responses := [];
    for i := 0 to |tickers|
      invariant responses == Successes(net, tickers[..i], timeRange)
    {
      assert tickers[..i + 1][..i] == tickers[..i];
      var res := FetchStockData(net, tickers[i], timeRange);
      if res.Err? {
        continue;
      }
      responses := responses + [res.value];
    }
    assert tickers[..|tickers|] == tickers;
    return responses, None;
  }
}
