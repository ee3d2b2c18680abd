/** The kline pagination loop (`fetch_ohlc_binance`) and the per-symbol
    result dictionary (`fetch_ohlc_binance_multi`). The HTTP session is
    replaced by a `Source`: the reply to the n-th request of one symbol,
    given the request's `endTime` parameter. */
module Klines {
  import opened Wrappers

  /** A field of a wire tuple as pandas' `to_numeric(errors="coerce")` sees
      it: a value it can coerce to a number, or one it turns into NaN. */
  datatype Cell = Numeric(v: real) | Malformed

  /** One kline tuple: its integer open time (`row[0]`) followed by the other
      fields (open, high, low, close, volume, close time, ...). */
  datatype Kline = Kline(openTime: int, rest: seq<Cell>)

  /** One reply: a JSON page of klines, an HTTP 429, or an `aiohttp.ClientError`
      (any other HTTP error status raised by `raise_for_status`, or a
      transport failure). */
  datatype Response = Page(rows: seq<Kline>) | RateLimited | ClientError

  /** The remote source for one symbol: the reply to the `attempt`-th request,
      whose `endTime` parameter is `endTime` (absent until a cursor is set). */
  type Source = (nat, Option<int>) -> Response

  /** The loop variables: the `endTime` entry of `params`, the `end_time`
      cursor and `symbol_data`. */
  datatype Loop = Loop(param: Option<int>, endTime: Option<int>, data: seq<Kline>)

  /** One request and its reply. */
  datatype Exchange = Exchange(request: Option<int>, response: Response)

  /** Python truthiness of `end_time`: `None` and `0` are false. */
  predicate Truthy(endTime: Option<int>) {
    endTime.Some? && endTime.value != 0
  }

  /** The `endTime` sent by an iteration: `if end_time: params["endTime"] = end_time`. */
  function Request(param: Option<int>, endTime: Option<int>): (r: Option<int>)
    ensures Truthy(endTime) ==> r == endTime
    ensures !Truthy(endTime) ==> r == param
  {
    if Truthy(endTime) then endTime else param
  }

  /** The number of loop iterations, `len(range(days * 24 // 1000 + 1))`.
      Dafny's `/` by a positive divisor is Python's `//`. */
  function Budget(days: int): (n: nat)
    ensures days < 0 ==> n == 0
    ensures days >= 0 ==> n >= 1 && (n - 1) * 1000 <= days * 24 < n * 1000
  {
    var k := days * 24 / 1000 + 1;
    if k < 0 then 0 else k
  }

  /** The loop from iteration `attempt` on, with `n` iterations left: `None`
      when a `ClientError` ends it (the caller then returns an empty list),
      otherwise the final `symbol_data`. */
  function Run(source: Source, n: nat, attempt: nat, s: Loop): Option<seq<Kline>>
    decreases n
  {
    if n == 0 then Some(s.data)
    else
      var req := Request(s.param, s.endTime);
      match source(attempt, req)
      case RateLimited => Run(source, n - 1, attempt + 1, s.(param := req))
      case ClientError => None
      case Page(rows) =>
        if rows == [] then Some(s.data)
        else Run(source, n - 1, attempt + 1, Loop(req, Some(rows[0].openTime), s.data + rows))
  }

  /** The rows `fetch_ohlc_binance` returns for one symbol. */
  function Fetched(source: Source, days: int): seq<Kline> {
    match Run(source, Budget(days), 0, Loop(None, None, []))
    case None => []
    case Some(data) => data
  }

  /** A reply after which the loop does not ask again. */
  predicate Terminal(r: Response) {
    r.ClientError? || r == Page([])
  }

  /** The `end_time` cursor after a non-terminal reply: unchanged by a 429,
      the first row's open time after a page. */
  function NextEndTime(endTime: Option<int>, r: Response): Option<int>
    requires !Terminal(r)
  {
    if r.Page? then Some(r.rows[0].openTime) else endTime
  }

  /** The requests the loop makes and the replies it gets, in order. */
  function Trace(source: Source, n: nat, attempt: nat, param: Option<int>, endTime: Option<int>): seq<Exchange>
    decreases n
  {
    if n == 0 then []
    else
      var req := Request(param, endTime);
      var response := source(attempt, req);
      [Exchange(req, response)] +
      if Terminal(response) then []
      else Trace(source, n - 1, attempt + 1, req, NextEndTime(endTime, response))
  }

  /** The rows of all pages of a trace, concatenated in arrival order. */
  function PagesOf(trace: seq<Exchange>): seq<Kline> {
    if trace == [] then []
    else (if trace[0].response.Page? then trace[0].response.rows else []) + PagesOf(trace[1..])
  }

  predicate HasClientError(trace: seq<Exchange>) {
    exists i :: 0 <= i < |trace| && trace[i].response.ClientError?
  }

  /** The request that follows an exchange: unchanged after a 429, the first
      row's open time after a page (when that time is truthy). */
  function NextRequest(x: Exchange): Option<int>
    requires !Terminal(x.response)
  {
    if x.response.RateLimited? then x.request
    else Request(x.request, Some(x.response.rows[0].openTime))
  }

  /** At most `n` requests are made, and fewer only when the last reply is
      an empty page or a `ClientError`. */
  lemma {:induction false} TraceBound(source: Source, n: nat, attempt: nat, param: Option<int>, endTime: Option<int>)
    ensures var t := Trace(source, n, attempt, param, endTime);
      |t| <= n && (|t| < n ==> |t| > 0 && Terminal(t[|t| - 1].response))
  {
    if n > 0 {
      var req := Request(param, endTime);
      var response := source(attempt, req);
      if !Terminal(response) {
        TraceBound(source, n - 1, attempt + 1, req, NextEndTime(endTime, response));
      }
    }
  }

  /** Each reply is the source's answer to the request actually sent, and
      the first request carries the initial parameter. */
  lemma {:induction false} TraceReplies(source: Source, n: nat, attempt: nat, param: Option<int>, endTime: Option<int>)
    ensures var t := Trace(source, n, attempt, param, endTime);
      && (|t| > 0 ==> t[0].request == Request(param, endTime))
      && (forall i :: 0 <= i < |t| ==> t[i].response == source(attempt + i, t[i].request))
  {
    if n > 0 {
      var req := Request(param, endTime);
      var response := source(attempt, req);
      if !Terminal(response) {
        TraceReplies(source, n - 1, attempt + 1, req, NextEndTime(endTime, response));
      }
    }
  }

  /** Only the last reply of a trace is terminal, and every later request
      follows from the exchange before it. */
  predicate Chained(t: seq<Exchange>) {
    forall i :: 0 <= i < |t| - 1 ==> !Terminal(t[i].response) && t[i + 1].request == NextRequest(t[i])
  }

  /** Only the last reply can be terminal: an empty page or a `ClientError`
      ends the loop. Between replies, a 429 repeats the same request and a
      page moves the cursor to its first row's open time. */
  lemma {:induction false} TraceCursor(source: Source, n: nat, attempt: nat, param: Option<int>, endTime: Option<int>)
    ensures Chained(Trace(source, n, attempt, param, endTime))
  {
    if n > 0 {
      var req := Request(param, endTime);
      var response := source(attempt, req);
      if !Terminal(response) {
        var e' := NextEndTime(endTime, response);
        var x, rest := Exchange(req, response), Trace(source, n - 1, attempt + 1, req, e');
        var t := Trace(source, n, attempt, param, endTime);
        assert t == [x] + rest;
        TraceCursor(source, n - 1, attempt + 1, req, e');
        if rest != [] {
          assert rest[0].request == Request(req, e');
          FirstStep(param, endTime, response);
        }
        forall i | 0 < i < |t| - 1
          ensures !Terminal(t[i].response) && t[i + 1].request == NextRequest(t[i])
        {
          assert t[i] == rest[i - 1] && t[i + 1] == rest[i];
        }
      }
    }
  }

  /** The request after a non-terminal reply is `NextRequest` of that exchange. */
  lemma FirstStep(param: Option<int>, endTime: Option<int>, response: Response)
    requires !Terminal(response)
    ensures var req := Request(param, endTime);
      Request(req, NextEndTime(endTime, response)) == NextRequest(Exchange(req, response))
  {
  }

  /** Reference definition of the cursor: the first open time of the most
      recent page whose first open time is truthy, or `init` when no such
      page has arrived yet. */
  function LatestCursor(t: seq<Exchange>, init: Option<int>): Option<int> {
    if t == [] then init
    else
      var r := t[|t| - 1].response;
      if r.Page? && r.rows != [] && r.rows[0].openTime != 0 then Some(r.rows[0].openTime)
      else LatestCursor(t[..|t| - 1], init)
  }

  /** In a chained trace, the i-th request is the latest cursor of the
      exchanges before it. */
  lemma {:induction false} RequestIsLatestCursor(t: seq<Exchange>, i: nat)
    requires Chained(t) && i < |t|
    ensures t[i].request == LatestCursor(t[..i], t[0].request)
  {
    if i == 0 {
      assert t[..0] == [];
    } else {
      RequestIsLatestCursor(t, i - 1);
      assert t[..i][..i - 1] == t[..i - 1];
      assert t[..i][i - 1] == t[i - 1];
    }
  }

  /** Every request of one symbol's fetch carries the first open time of the
      most recent page whose first open time is truthy, and no `endTime`
      before such a page: 429s and pages starting at time 0 leave it as it
      was. */
  lemma FetchRequests(source: Source, days: int)
    ensures var t := Trace(source, Budget(days), 0, None, None);
      forall i :: 0 <= i < |t| ==> t[i].request == LatestCursor(t[..i], None)
  {
    var t := Trace(source, Budget(days), 0, None, None);
    TraceReplies(source, Budget(days), 0, None, None);
    TraceCursor(source, Budget(days), 0, None, None);
    forall i | 0 <= i < |t| ensures t[i].request == LatestCursor(t[..i], None) {
      RequestIsLatestCursor(t, i);
    }
  }

  /** The rows one reply contributes. */
  function RowsOf(r: Response): seq<Kline> {
    if r.Page? then r.rows else []
  }

  /** Unfolding one exchange at the front of a trace. */
  lemma ConsExchange(x: Exchange, rest: seq<Exchange>)
    ensures PagesOf([x] + rest) == RowsOf(x.response) + PagesOf(rest)
    ensures HasClientError([x] + rest) <==> x.response.ClientError? || HasClientError(rest)
  {
    var t := [x] + rest;
    assert t[1..] == rest;
    if HasClientError(t) && !x.response.ClientError? {
      var i :| 0 <= i < |t| && t[i].response.ClientError?;
      assert rest[i - 1].response.ClientError?;
    }
    if HasClientError(rest) {
      var i :| 0 <= i < |rest| && rest[i].response.ClientError?;
      assert t[i + 1].response.ClientError?;
    }
  }

  /** Without a `ClientError` the loop returns what it had plus every page, in
      arrival order, with no sorting and no de-duplication; with one, the
      loop's result is discarded. */
  lemma {:induction false} RunIsPagesOfTrace(source: Source, n: nat, attempt: nat, s: Loop)
    ensures var t := Trace(source, n, attempt, s.param, s.endTime);
      Run(source, n, attempt, s) == if HasClientError(t) then None else Some(s.data + PagesOf(t))
  {
    if n == 0 {
      assert s.data + [] == s.data;
    } else {
      var req := Request(s.param, s.endTime);
      var response := source(attempt, req);
      var x := Exchange(req, response);
      if Terminal(response) {
        ConsExchange(x, []);
        assert Trace(source, n, attempt, s.param, s.endTime) == [x] + [];
        assert s.data + PagesOf([x] + []) == s.data;
      } else {
        var s' := Loop(req, NextEndTime(s.endTime, response), s.data + RowsOf(response));
        var rest := Trace(source, n - 1, attempt + 1, req, s'.endTime);
        RunIsPagesOfTrace(source, n - 1, attempt + 1, s');
        ConsExchange(x, rest);
        assert Trace(source, n, attempt, s.param, s.endTime) == [x] + rest;
        assert s.data + RowsOf(response) + PagesOf(rest) == s.data + (RowsOf(response) + PagesOf(rest));
        if response.RateLimited? {
          assert s' == s.(param := req).(data := s.data + []);
          assert s.data + [] == s.data;
        }
      }
    }
  }

  /** What one symbol's fetch returns, stated over the exchanges it makes:
      at most `Budget(days)` requests, the first without `endTime`, and the
      result is the concatenated pages unless some reply was a `ClientError`. */
  lemma FetchedIsPagesOfTrace(source: Source, days: int)
    ensures var t := Trace(source, Budget(days), 0, None, None);
      && |t| <= Budget(days)
      && (|t| > 0 ==> t[0].request == None)
      && Fetched(source, days) == if HasClientError(t) then [] else PagesOf(t)
  {
    TraceBound(source, Budget(days), 0, None, None);
    TraceReplies(source, Budget(days), 0, None, None);
    RunIsPagesOfTrace(source, Budget(days), 0, Loop(None, None, []));
  }

  /** A 429 costs a loop iteration: with one day of history (a single
      iteration), a source that is rate-limited once and would then serve a
      page yields nothing, whereas the same page served at once is kept. */
  lemma RateLimitUsesAnIteration(rows: seq<Kline>)
    requires rows != []
    ensures Fetched((attempt: nat, e: Option<int>) => if attempt == 0 then RateLimited else Page(rows), 1) == []
    ensures Fetched((attempt: nat, e: Option<int>) => Page(rows), 1) == rows
  {
  }

  /** `fetch_ohlc_binance`: the pagination loop for one symbol. */
  method FetchOhlc(source: Source, symbol: string, days: int) returns (sym: string, data: seq<Kline>)
    ensures sym == symbol
    ensures data == Fetched(source, days)
  {
    var budget := Budget(days);
    var param: Option<int> := None;
    var endTime: Option<int> := None;
    var symbolData: seq<Kline> := [];
    var i := 0;
    while i < budget
      invariant 0 <= i <= budget
      invariant Run(source, budget, 0, Loop(None, None, [])) ==
                Run(source, budget - i, i, Loop(param, endTime, symbolData))
    {
      if Truthy(endTime) {
        param := endTime;
      }
      var response := source(i, param);
      if response.RateLimited? {
        i := i + 1;
        continue;
      }
      if response.ClientError? {
        return symbol, [];
      }
      if response.rows == [] {
        break;
      }
      symbolData := symbolData + response.rows;
      endTime := Some(response.rows[0].openTime);
      i := i + 1;
    }
    return symbol, symbolData;
  }

  /** `fetch_ohlc_binance_multi`: one fetch per requested symbol, collected
      into a dictionary keyed by symbol. */
  method FetchOhlcMulti(server: string -> Source, symbols: seq<string>, days: int)
    returns (all: map<string, seq<Kline>>)
    ensures all.Keys == set s | s in symbols
    ensures forall s :: s in all ==> all[s] == Fetched(server(s), days)
  {
    all := map[];
    var i := 0;
    while i < |symbols|
      invariant 0 <= i <= |symbols|
      invariant all.Keys == set s | s in symbols[..i]
      invariant forall s :: s in all ==> all[s] == Fetched(server(s), days)
    {
      var sym, data := FetchOhlc(server(symbols[i]), symbols[i], days);
      all := all[sym := data];
      assert symbols[..i + 1] == symbols[..i] + [symbols[i]];
      i := i + 1;
    }
    assert symbols[..i] == symbols;
  }
}
