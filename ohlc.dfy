/** Row parsing and OHLC bucketing (`transform_and_save_multi`): the raw
    klines of every symbol become the hourly frame, and each symbol's rows
    are grouped into daily and weekly buckets aggregated with
    first / max / min / last / sum. */
module Ohlc {
  import opened Wrappers
  import opened Klines

  /** A row of the hourly frame: `timestamp, symbol, open, high, low, close, volume`. */
  datatype Candle = Candle(symbol: string, timestamp: int, open: real, high: real, low: real, close: real, volume: real)

  /** A row of the daily or weekly frame, labelled by its bucket. */
  datatype Bar = Bar(symbol: string, bucket: int, open: real, high: real, low: real, close: real, volume: real)

  /** The three frames `(hourly_df, daily_df, weekly_df)`; the daily and
      weekly frames are given per symbol, as the caller reads them. */
  datatype Frames = Frames(hourly: seq<Candle>, daily: map<string, seq<Bar>>, weekly: map<string, seq<Bar>>)

  /** The number of column names given to `pd.DataFrame`. */
  const Columns: nat := 12

  /** Milliseconds in a day: the width of a `"1D"` bucket. */
  const DayMillis: int := 86_400_000

  // ---------------------------------------------------------------------------
  // Parsing

  /** pandas builds the frame when the widest row has exactly as many fields
      as there are column names (shorter rows are padded with missing
      values); otherwise it raises and the symbol is skipped. */
  predicate Frameable(raw: seq<Kline>) {
    (forall i :: 0 <= i < |raw| ==> 1 + |raw[i].rest| <= Columns) &&
    (exists i :: 0 <= i < |raw| && 1 + |raw[i].rest| == Columns)
  }

  /** All five numeric fields (open, high, low, close, volume) are present
      and coerce to numbers, so `dropna` keeps the row. */
  predicate Coercible(k: Kline) {
    |k.rest| >= 5 && forall j :: 0 <= j < 5 ==> k.rest[j].Numeric?
  }

  /** The six kept columns of a row, tagged with its symbol. */
  function Project(symbol: string, k: Kline): Candle
    requires Coercible(k)
  {
    Candle(symbol, k.openTime, k.rest[0].v, k.rest[1].v, k.rest[2].v, k.rest[3].v, k.rest[4].v)
  }

  /** The rows of one symbol that survive the projection, the numeric
      coercion and `dropna`, in their original order. */
  function ParseRows(symbol: string, raw: seq<Kline>): (rows: seq<Candle>)
    ensures forall k :: 0 <= k < |rows| ==> rows[k].symbol == symbol
  {
    if raw == [] then []
    else (if Coercible(raw[0]) then [Project(symbol, raw[0])] else []) + ParseRows(symbol, raw[1..])
  }

  /** One iteration of the per-symbol loop: an empty raw list is skipped,
      a frame that cannot be built is skipped, otherwise the cleaned frame
      (possibly empty) is appended to `all_dfs`. */
  function ParseSymbol(symbol: string, raw: seq<Kline>): seq<(string, seq<Candle>)> {
    if raw == [] || !Frameable(raw) then [] else [(symbol, ParseRows(symbol, raw))]
  }

  /** `all_dfs` after the loop over the dictionary's items. */
  function ParsedItems(items: seq<(string, seq<Kline>)>): seq<(string, seq<Candle>)> {
    if items == [] then []
    else ParsedItems(items[..|items| - 1]) + ParseSymbol(items[|items| - 1].0, items[|items| - 1].1)
  }

  /** `pd.concat(all_dfs)`. */
  function Concat(dfs: seq<(string, seq<Candle>)>): seq<Candle> {
    if dfs == [] then [] else Concat(dfs[..|dfs| - 1]) + dfs[|dfs| - 1].1
  }

  /** The head and tail of a concatenation with a non-empty front. */
  lemma AppendParts<T>(a: seq<T>, b: seq<T>)
    requires a != []
    ensures (a + b)[0] == a[0] && (a + b)[1..] == a[1..] + b
  {
  }

  /** Parsing two batches of rows separately and concatenating the results is
      parsing their concatenation: rows keep their order and each row is
      kept or dropped on its own. */
  lemma {:induction false} ParseRowsAppend(symbol: string, a: seq<Kline>, b: seq<Kline>)
    ensures ParseRows(symbol, a + b) == ParseRows(symbol, a) + ParseRows(symbol, b)
  {
    if a == [] {
      assert a + b == b;
    } else {
      AppendParts(a, b);
      ParseRowsAppend(symbol, a[1..], b);
    }
  }

  /** A row is in the parsed frame exactly when some raw row whose five
      numeric fields all coerce projects to it; the frame is never longer
      than the raw data. */
  lemma {:induction false} ParseRowsMembers(symbol: string, raw: seq<Kline>)
    ensures |ParseRows(symbol, raw)| <= |raw|
    ensures forall c :: c in ParseRows(symbol, raw) <==>
      exists i :: 0 <= i < |raw| && Coercible(raw[i]) && Project(symbol, raw[i]) == c
  {
    if raw != [] {
      ParseRowsMembers(symbol, raw[1..]);
      forall c ensures c in ParseRows(symbol, raw) <==>
        exists i :: 0 <= i < |raw| && Coercible(raw[i]) && Project(symbol, raw[i]) == c
      {
        if exists i :: 0 <= i < |raw[1..]| && Coercible(raw[1..][i]) && Project(symbol, raw[1..][i]) == c {
          var i :| 0 <= i < |raw[1..]| && Coercible(raw[1..][i]) && Project(symbol, raw[1..][i]) == c;
          assert raw[i + 1] == raw[1..][i];
        }
        if exists i :: 0 <= i < |raw| && Coercible(raw[i]) && Project(symbol, raw[i]) == c {
          var i :| 0 <= i < |raw| && Coercible(raw[i]) && Project(symbol, raw[i]) == c;
          if i > 0 {
            assert raw[1..][i - 1] == raw[i];
          }
        }
      }
    }
  }

  // ---------------------------------------------------------------------------
  // Bucketing

  /** Rows in ascending bucket order (as they are after `resample`'s sort by time). */
  predicate SortedBy(s: seq<Candle>, g: Bucketing) {
    forall i, j :: 0 <= i < j < |s| ==> BucketOf(g, s[i].timestamp) <= BucketOf(g, s[j].timestamp)
  }

  /** A fixed-width bucketing of millisecond timestamps: bucket `b` holds
      the times `t` with `(t + offset) / width == b`. */
  datatype Bucketing = Bucketing(width: Width, offset: int)

  type Width = w: int | w > 0 witness 1

  /** The bucket of a timestamp (Dafny's `/` by a positive width rounds down). */
  function BucketOf(g: Bucketing, ts: int): int {
    (ts + g.offset) / g.width
  }

  /** `"1D"`: UTC calendar days. */
  const Daily: Bucketing := Bucketing(DayMillis, 0)

  lemma MulMonotone(x: int, y: int, w: int)
    requires w > 0 && x <= y
    ensures x * w <= y * w
  {
    assert y * w - x * w == (y - x) * w;
  }

  lemma MulCancel(x: int, y: int, w: int)
    requires w > 0 && x * w < y * w
    ensures x < y
  {
    if x >= y {
      MulMonotone(y, x, w);
    }
  }

  /** A later time never falls in an earlier bucket. */
  lemma BucketMonotone(g: Bucketing, a: int, b: int)
    requires a <= b
    ensures BucketOf(g, a) <= BucketOf(g, b)
  {
    var x, y, w := a + g.offset, b + g.offset, g.width as int;
    var qa, qb := x / w, y / w;
    assert qa * w <= x by { assert x == qa * w + x % w && 0 <= x % w; }
    assert y < (qb + 1) * w by { assert y == qb * w + y % w && y % w < w; assert (qb + 1) * w == qb * w + w; }
    MulCancel(qa, qb + 1, w);
  }

  /** The highest `high` of a non-empty run. */
  function MaxHigh(run: seq<Candle>): (h: real)
    requires run != []
    ensures forall i :: 0 <= i < |run| ==> run[i].high <= h
    ensures exists i :: 0 <= i < |run| && run[i].high == h
  {
    if |run| == 1 then run[0].high
    else
      var rest := MaxHigh(run[1..]);
      assert forall i :: 1 <= i < |run| ==> run[i] == run[1..][i - 1];
      if run[0].high >= rest then run[0].high else rest
  }

  /** The lowest `low` of a non-empty run. */
  function MinLow(run: seq<Candle>): (l: real)
    requires run != []
    ensures forall i :: 0 <= i < |run| ==> l <= run[i].low
    ensures exists i :: 0 <= i < |run| && run[i].low == l
  {
    if |run| == 1 then run[0].low
    else
      var rest := MinLow(run[1..]);
      assert forall i :: 1 <= i < |run| ==> run[i] == run[1..][i - 1];
      if run[0].low <= rest then run[0].low else rest
  }

  /** The total `volume` of a run. */
  function SumVolume(run: seq<Candle>): real {
    if run == [] then 0.0 else run[0].volume + SumVolume(run[1..])
  }

  /** The `agg` rule: open first, high max, low min, close last, volume sum. */
  function Aggregate(symbol: string, bucket: int, run: seq<Candle>): (b: Bar)
    requires run != []
  {
    Bar(symbol, bucket, run[0].open, MaxHigh(run), MinLow(run), run[|run| - 1].close, SumVolume(run))
  }

  /** The number of leading rows that fall in bucket `k`. */
  function RunLength(s: seq<Candle>, g: Bucketing, k: int): (n: nat)
    ensures n <= |s|
    ensures forall i :: 0 <= i < n ==> BucketOf(g, s[i].timestamp) == k
    ensures n < |s| ==> BucketOf(g, s[n].timestamp) != k
    ensures s != [] && BucketOf(g, s[0].timestamp) == k ==> n >= 1
  {
    if s == [] || BucketOf(g, s[0].timestamp) != k then 0 else 1 + RunLength(s[1..], g, k)
  }

  /** The non-empty buckets of one symbol's sorted rows, in ascending order:
      each maximal run of rows sharing a bucket becomes one bar. */
  function Resample(symbol: string, s: seq<Candle>, g: Bucketing): seq<Bar>
    decreases |s|
  {
    if s == [] then []
    else
      var k := BucketOf(g, s[0].timestamp);
      var n := RunLength(s, g, k);
      [Aggregate(symbol, k, s[..n])] + Resample(symbol, s[n..], g)
  }

  /** Reference definition of a bucket's contents: the rows whose timestamp
      falls in bucket `b`, in their order. */
  function Members(s: seq<Candle>, g: Bucketing, b: int): seq<Candle> {
    if s == [] then []
    else (if BucketOf(g, s[0].timestamp) == b then [s[0]] else []) + Members(s[1..], g, b)
  }

  lemma {:induction false} MembersAppend(a: seq<Candle>, c: seq<Candle>, g: Bucketing, b: int)
    ensures Members(a + c, g, b) == Members(a, g, b) + Members(c, g, b)
  {
    if a == [] {
      assert a + c == c;
    } else {
      AppendParts(a, c);
      MembersAppend(a[1..], c, g, b);
    }
  }

  /** Members of a run that lies entirely in one bucket `k`. */
  lemma {:induction false} MembersOfRun(s: seq<Candle>, g: Bucketing, k: int, b: int)
    requires forall i :: 0 <= i < |s| ==> BucketOf(g, s[i].timestamp) == k
    ensures Members(s, g, b) == if b == k then s else []
  {
    if s != [] {
      MembersOfRun(s[1..], g, k, b);
      assert [s[0]] + s[1..] == s;
    }
  }

  /** Members of rows that all lie in buckets other than `b`. */
  lemma {:induction false} MembersNone(s: seq<Candle>, g: Bucketing, b: int)
    requires forall i :: 0 <= i < |s| ==> BucketOf(g, s[i].timestamp) != b
    ensures Members(s, g, b) == []
  {
    if s != [] {
      MembersNone(s[1..], g, b);
    }
  }

  /** One step of `Resample`: the first run becomes a bar. */
  lemma ResampleStep(symbol: string, s: seq<Candle>, g: Bucketing)
    requires s != []
    ensures var k := BucketOf(g, s[0].timestamp); var n := RunLength(s, g, k);
      && 1 <= n
      && s == s[..n] + s[n..]
      && Resample(symbol, s, g) == [Aggregate(symbol, k, s[..n])] + Resample(symbol, s[n..], g)
  {
  }

  lemma SortedBySuffix(s: seq<Candle>, g: Bucketing, n: nat)
    requires SortedBy(s, g) && n <= |s|
    ensures SortedBy(s[n..], g)
  {
    forall i, j | 0 <= i < j < |s| - n
      ensures BucketOf(g, s[n..][i].timestamp) <= BucketOf(g, s[n..][j].timestamp)
    {
      assert s[n..][i] == s[n + i] && s[n..][j] == s[n + j];
    }
  }

  /** On sorted rows, every row after the first run lies in a later bucket. */
  lemma ResampleUnfold(symbol: string, s: seq<Candle>, g: Bucketing, k: int, n: nat)
    requires SortedBy(s, g) && s != []
    requires k == BucketOf(g, s[0].timestamp) && n == RunLength(s, g, k)
    ensures 1 <= n
    ensures SortedBy(s[n..], g)
    ensures Resample(symbol, s, g) == [Aggregate(symbol, k, s[..n])] + Resample(symbol, s[n..], g)
    ensures forall i :: n <= i < |s| ==> BucketOf(g, s[i].timestamp) > k
  {
    ResampleStep(symbol, s, g);
    SortedBySuffix(s, g, n);
    if n < |s| {
      var kn := BucketOf(g, s[n].timestamp);
      assert k <= kn && kn != k;
      forall i | n <= i < |s| ensures BucketOf(g, s[i].timestamp) > k {
        assert kn <= BucketOf(g, s[i].timestamp);
      }
    }
  }

  /** A lower bound on the rows' buckets bounds every bar's bucket. */
  lemma {:induction false} ResampleBucketsAbove(symbol: string, s: seq<Candle>, g: Bucketing, lo: int)
    requires forall i :: 0 <= i < |s| ==> lo <= BucketOf(g, s[i].timestamp)
    ensures forall j :: 0 <= j < |Resample(symbol, s, g)| ==> lo <= Resample(symbol, s, g)[j].bucket
    decreases |s|
  {
    if s != [] {
      var k := BucketOf(g, s[0].timestamp);
      var n := RunLength(s, g, k);
      ResampleStep(symbol, s, g);
      var rest := s[n..];
      forall i | 0 <= i < |rest| ensures lo <= BucketOf(g, rest[i].timestamp) {
        assert rest[i] == s[n + i];
      }
      ResampleBucketsAbove(symbol, rest, g, lo);
      var r, r' := Resample(symbol, s, g), Resample(symbol, rest, g);
      forall j | 0 < j < |r| ensures lo <= r[j].bucket {
        assert r[j] == r'[j - 1];
      }
    }
  }

  /** How the bucket contents of a sorted series split at its first run. */
  lemma MembersAtFirstRun(s: seq<Candle>, g: Bucketing, n: nat, b: int)
    requires 1 <= n <= |s|
    requires forall i :: 0 <= i < n ==> BucketOf(g, s[i].timestamp) == BucketOf(g, s[0].timestamp)
    requires forall i :: n <= i < |s| ==> BucketOf(g, s[i].timestamp) > BucketOf(g, s[0].timestamp)
    ensures Members(s, g, b) == if b == BucketOf(g, s[0].timestamp) then s[..n] else Members(s[n..], g, b)
  {
    var k := BucketOf(g, s[0].timestamp);
    assert s == s[..n] + s[n..];
    MembersAppend(s[..n], s[n..], g, b);
    MembersOfRun(s[..n], g, k, b);
    if b == k {
      MembersNone(s[n..], g, b);
      assert s[..n] + [] == s[..n];
    }
  }

  /** Each bar aggregates exactly the rows of its bucket, which is non-empty. */
  predicate AggregatesMembers(symbol: string, r: seq<Bar>, s: seq<Candle>, g: Bucketing) {
    forall j :: 0 <= j < |r| ==>
      Members(s, g, r[j].bucket) != [] &&
      r[j] == Aggregate(symbol, r[j].bucket, Members(s, g, r[j].bucket))
  }

  lemma {:induction false} ResampleBarsAggregateMembers(symbol: string, s: seq<Candle>, g: Bucketing)
    requires SortedBy(s, g)
    ensures AggregatesMembers(symbol, Resample(symbol, s, g), s, g)
    decreases |s|
  {
    if s != [] {
      var k := BucketOf(g, s[0].timestamp);
      var n := RunLength(s, g, k);
      ResampleUnfold(symbol, s, g, k, n);
      var rest := s[n..];
      ResampleBarsAggregateMembers(symbol, rest, g);
      forall i | 0 <= i < |rest| ensures k + 1 <= BucketOf(g, rest[i].timestamp) {
        assert rest[i] == s[n + i];
      }
      ResampleBucketsAbove(symbol, rest, g, k + 1);
      var r := Resample(symbol, s, g);
      var r' := Resample(symbol, rest, g);
      forall j | 0 <= j < |r|
        ensures Members(s, g, r[j].bucket) != [] &&
                r[j] == Aggregate(symbol, r[j].bucket, Members(s, g, r[j].bucket))
      {
        MembersAtFirstRun(s, g, n, r[j].bucket);
        if j > 0 {
          assert r[j] == r'[j - 1];
        }
      }
    }
  }

  /** The bucket labels of a sequence of bars. */
  function Labels(r: seq<Bar>): (l: seq<int>)
    ensures |l| == |r| && forall j :: 0 <= j < |r| ==> l[j] == r[j].bucket
  {
    if r == [] then [] else [r[0].bucket] + Labels(r[1..])
  }

  /** Every row of `s` has a bar for its bucket in `r`. */
  predicate Covers(r: seq<Bar>, s: seq<Candle>, g: Bucketing) {
    forall i :: 0 <= i < |s| ==> BucketOf(g, s[i].timestamp) in Labels(r)
  }

  /** Bars in strictly ascending bucket order. */
  predicate Ascending(r: seq<Bar>) {
    forall j, j' :: 0 <= j < j' < |r| ==> r[j].bucket < r[j'].bucket
  }

  lemma CoversCons(b: Bar, r: seq<Bar>, run: seq<Candle>, rest: seq<Candle>, g: Bucketing)
    requires forall i :: 0 <= i < |run| ==> BucketOf(g, run[i].timestamp) == b.bucket
    requires Covers(r, rest, g)
    ensures Covers([b] + r, run + rest, g)
  {
    var r2, s2 := [b] + r, run + rest;
    forall i | 0 <= i < |s2| ensures BucketOf(g, s2[i].timestamp) in Labels(r2) {
      if i >= |run| {
        assert s2[i] == rest[i - |run|];
        var j :| 0 <= j < |r| && Labels(r)[j] == BucketOf(g, rest[i - |run|].timestamp);
        assert Labels(r2)[j + 1] == r2[j + 1].bucket == r[j].bucket;
      } else {
        assert s2[i] == run[i];
        assert Labels(r2)[0] == b.bucket;
      }
    }
  }

  lemma AscendingCons(b: Bar, r: seq<Bar>, lo: int)
    requires Ascending(r)
    requires b.bucket < lo
    requires forall j :: 0 <= j < |r| ==> lo <= r[j].bucket
    ensures Ascending([b] + r)
  {
    var r2 := [b] + r;
    forall j, j' | 0 <= j < j' < |r2| ensures r2[j].bucket < r2[j'].bucket {
      assert r2[j'] == r[j' - 1];
      if j > 0 {
        assert r2[j] == r[j - 1];
      }
    }
  }

  /** Every row's bucket has a bar. */
  lemma {:induction false} ResampleCoversRows(symbol: string, s: seq<Candle>, g: Bucketing)
    ensures Covers(Resample(symbol, s, g), s, g)
    decreases |s|
  {
    if s != [] {
      var k := BucketOf(g, s[0].timestamp);
      var n := RunLength(s, g, k);
      ResampleStep(symbol, s, g);
      ResampleCoversRows(symbol, s[n..], g);
      CoversCons(Aggregate(symbol, k, s[..n]), Resample(symbol, s[n..], g), s[..n], s[n..], g);
    }
  }

  /** Bars come in strictly ascending bucket order, so no bucket repeats. */
  lemma {:induction false} ResampleAscending(symbol: string, s: seq<Candle>, g: Bucketing)
    requires SortedBy(s, g)
    ensures Ascending(Resample(symbol, s, g))
    decreases |s|
  {
    if s != [] {
      var k := BucketOf(g, s[0].timestamp);
      var n := RunLength(s, g, k);
      ResampleUnfold(symbol, s, g, k, n);
      var rest := s[n..];
      ResampleAscending(symbol, rest, g);
      forall i | 0 <= i < |rest| ensures k + 1 <= BucketOf(g, rest[i].timestamp) {
        assert rest[i] == s[n + i];
      }
      ResampleBucketsAbove(symbol, rest, g, k + 1);
      AscendingCons(Aggregate(symbol, k, s[..n]), Resample(symbol, rest, g), k + 1);
    }
  }

  /** `resample(...).agg(...)` on one symbol, keeping only non-empty buckets:
      the bars come in strictly ascending bucket order, there is one bar for
      each bucket that holds a row, and each bar aggregates exactly the rows
      of its bucket. */
  lemma ResampleIsGroupByBucket(symbol: string, s: seq<Candle>, g: Bucketing)
    requires SortedBy(s, g)
    ensures AggregatesMembers(symbol, Resample(symbol, s, g), s, g)
    ensures Covers(Resample(symbol, s, g), s, g)
    ensures Ascending(Resample(symbol, s, g))
  {
    ResampleBarsAggregateMembers(symbol, s, g);
    ResampleCoversRows(symbol, s, g);
    ResampleAscending(symbol, s, g);
  }

  /** The bucket rule row by row: a bar's open is its first row's open, its
      close its last row's close, its high and low the extreme values
      reached by some row, and its volume the sum of the rows' volumes. */
  lemma AggregateFields(symbol: string, bucket: int, run: seq<Candle>)
    requires run != []
    ensures var b := Aggregate(symbol, bucket, run);
      && b.open == run[0].open
      && b.close == run[|run| - 1].close
      && (forall i :: 0 <= i < |run| ==> run[i].high <= b.high && b.low <= run[i].low)
      && (exists i :: 0 <= i < |run| && run[i].high == b.high)
      && (exists i :: 0 <= i < |run| && run[i].low == b.low)
      && b.volume == SumVolume(run)
  {
  }
  // ---------------------------------------------------------------------------
  // The whole transformation

  /** Raw rows in ascending open-time order. */
  predicate TimeSorted(raw: seq<Kline>) {
    forall i, j :: 0 <= i < j < |raw| ==> raw[i].openTime <= raw[j].openTime
  }

  /** Candles in ascending time order. */
  predicate CandlesSorted(s: seq<Candle>) {
    forall i, j :: 0 <= i < j < |s| ==> s[i].timestamp <= s[j].timestamp
  }

  /** Places `c` after every row of the sorted `s` whose time is not later
      than its own. */
  function Insert(c: Candle, s: seq<Candle>): seq<Candle>
    decreases |s|
  {
    if s == [] then [c]
    else if c.timestamp < s[|s| - 1].timestamp then Insert(c, s[..|s| - 1]) + [s[|s| - 1]]
    else s + [c]
  }

  /** The stable sort by time that `resample` applies to an index that is
      not already increasing (pandas sorts it with a merge sort, so rows with
      equal times keep their order). */
  function SortByTime(s: seq<Candle>): seq<Candle>
    decreases |s|
  {
    if s == [] then [] else Insert(s[|s| - 1], SortByTime(s[..|s| - 1]))
  }

  /** The rows of `s` stamped with time `t`, in their order. */
  function AtTime(s: seq<Candle>, t: int): seq<Candle> {
    if s == [] then [] else Stamped(s[0], t) + AtTime(s[1..], t)
  }

  /** `[c]` when `c` is stamped with time `t`, otherwise nothing. */
  function Stamped(c: Candle, t: int): seq<Candle> {
    if c.timestamp == t then [c] else []
  }

  /** A non-empty sequence is its prefix followed by its last row. */
  lemma SplitLast(s: seq<Candle>)
    requires s != []
    ensures s == s[..|s| - 1] + [s[|s| - 1]]
  {
  }

  lemma {:induction false} InsertPermutes(c: Candle, s: seq<Candle>)
    ensures multiset(Insert(c, s)) == multiset(s) + multiset{c}
    decreases |s|
  {
    if s != [] && c.timestamp < s[|s| - 1].timestamp {
      var init := s[..|s| - 1];
      InsertPermutes(c, init);
      SplitLast(s);
    }
  }

  lemma {:induction false} InsertSorted(c: Candle, s: seq<Candle>)
    requires CandlesSorted(s)
    ensures CandlesSorted(Insert(c, s))
    decreases |s|
  {
    if s != [] && c.timestamp < s[|s| - 1].timestamp {
      var init, last := s[..|s| - 1], s[|s| - 1];
      InsertSorted(c, init);
      InsertPermutes(c, init);
      var r := Insert(c, init);
      forall k | 0 <= k < |r| ensures r[k].timestamp <= last.timestamp {
        assert r[k] in multiset(r);
        if r[k] != c {
          assert r[k] in multiset(init);
          var j :| 0 <= j < |init| && init[j] == r[k];
          assert s[j] == init[j];
        }
      }
    }
  }

  lemma {:induction false} AtTimeAppend(a: seq<Candle>, b: seq<Candle>, t: int)
    ensures AtTime(a + b, t) == AtTime(a, t) + AtTime(b, t)
  {
    if a == [] {
      assert a + b == b;
    } else {
      AppendParts(a, b);
      AtTimeAppend(a[1..], b, t);
    }
  }

  /** `AtTime` of a row followed by one more. */
  lemma AtTimeSnoc(a: seq<Candle>, c: Candle, t: int)
    ensures AtTime(a + [c], t) == AtTime(a, t) + Stamped(c, t)
  {
    AtTimeAppend(a, [c], t);
    assert [c][1..] == [];
    assert AtTime([c], t) == Stamped(c, t) + [];
  }

  lemma {:induction false} InsertStable(c: Candle, s: seq<Candle>, t: int)
    requires CandlesSorted(s)
    ensures AtTime(Insert(c, s), t) == AtTime(s, t) + Stamped(c, t)
    decreases |s|
  {
    if s == [] {
      AtTimeSnoc([], c, t);
      assert [] + [c] == [c];
    } else if c.timestamp < s[|s| - 1].timestamp {
      var init, last := s[..|s| - 1], s[|s| - 1];
      var x, y, z := AtTime(init, t), Stamped(c, t), Stamped(last, t);
      InsertStable(c, init, t);
      AtTimeSnoc(Insert(c, init), last, t);
      AtTimeSnoc(init, last, t);
      SplitLast(s);
      if c.timestamp == t {
        assert z == [] && x + y + z == x + y && x + z + y == x + y;
      } else {
        assert y == [] && x + y + z == x + z && x + z + y == x + z;
      }
    } else {
      AtTimeSnoc(s, c, t);
    }
  }

  lemma {:induction false} SortByTimeSorted(s: seq<Candle>)
    ensures multiset(SortByTime(s)) == multiset(s)
    ensures CandlesSorted(SortByTime(s))
    decreases |s|
  {
    if s != [] {
      var init, last := s[..|s| - 1], s[|s| - 1];
      SortByTimeSorted(init);
      InsertPermutes(last, SortByTime(init));
      InsertSorted(last, SortByTime(init));
      SplitLast(s);
    }
  }

  lemma {:induction false} SortByTimeStable(s: seq<Candle>, t: int)
    ensures AtTime(SortByTime(s), t) == AtTime(s, t)
    decreases |s|
  {
    if s != [] {
      var init, last := s[..|s| - 1], s[|s| - 1];
      SortByTimeStable(init, t);
      SortByTimeSorted(init);
      InsertStable(last, SortByTime(init), t);
      AtTimeSnoc(init, last, t);
      SplitLast(s);
    }
  }

  /** The sort is a permutation that leaves the rows in time order and rows
      stamped with the same time in their original order. */
  lemma SortByTimeIsStableSort(s: seq<Candle>)
    ensures multiset(SortByTime(s)) == multiset(s)
    ensures CandlesSorted(SortByTime(s))
    ensures forall t :: AtTime(SortByTime(s), t) == AtTime(s, t)
  {
    SortByTimeSorted(s);
    forall t ensures AtTime(SortByTime(s), t) == AtTime(s, t) {
      SortByTimeStable(s, t);
    }
  }

  /** Rows already in time order are left as they are. */
  lemma {:induction false} SortByTimeOfSorted(s: seq<Candle>)
    requires CandlesSorted(s)
    ensures SortByTime(s) == s
    decreases |s|
  {
    if s != [] {
      var init := s[..|s| - 1];
      SortByTimeOfSorted(init);
      SplitLast(s);
    }
  }

  /** The dictionary's keys are distinct. */
  predicate DistinctSymbols(items: seq<(string, seq<Kline>)>) {
    forall i, j :: 0 <= i < j < |items| ==> items[i].0 != items[j].0
  }

  function Symbols(items: seq<(string, seq<Kline>)>): (syms: seq<string>)
    ensures |syms| == |items| && forall i :: 0 <= i < |items| ==> syms[i] == items[i].0
  {
    if items == [] then [] else [items[0].0] + Symbols(items[1..])
  }

  /** The rows one item of the dictionary adds to the hourly frame. */
  function Contribution(item: (string, seq<Kline>)): seq<Candle> {
    if item.1 == [] || !Frameable(item.1) then [] else ParseRows(item.0, item.1)
  }

  /** `hourly_df[hourly_df["symbol"] == symbol]`. */
  function SymbolRows(rows: seq<Candle>, symbol: string): seq<Candle> {
    if rows == [] then []
    else (if rows[0].symbol == symbol then [rows[0]] else []) + SymbolRows(rows[1..], symbol)
  }

  /** `groupby("symbol").resample(...).agg(...)` over `all_dfs`, one bar
      sequence per symbol that has rows; `resample` first sorts each
      symbol's rows by time. */
  function PerSymbol(dfs: seq<(string, seq<Candle>)>, g: Bucketing): map<string, seq<Bar>> {
    if dfs == [] then map[]
    else
      var m := PerSymbol(dfs[..|dfs| - 1], g);
      var last := dfs[|dfs| - 1];
      if last.1 == [] then m
      else m[last.0 := Resample(last.0, SortByTime(last.1), g)]
  }

  /** `transform_and_save_multi(data)`, with the CSV writes left out:
      `None` stands for `(None, None, None)`. */
  function Transform(items: seq<(string, seq<Kline>)>, weekly: Bucketing): Option<Frames> {
    var dfs := ParsedItems(items);
    var hourly := Concat(dfs);
    if dfs == [] || hourly == [] then None
    else Some(Frames(hourly, PerSymbol(dfs, Daily), PerSymbol(dfs, weekly)))
  }

  lemma {:induction false} ParseRowsSorted(symbol: string, raw: seq<Kline>)
    requires TimeSorted(raw)
    ensures CandlesSorted(ParseRows(symbol, raw))
  {
    if raw != [] {
      ParseRowsSorted(symbol, raw[1..]);
      ParseRowsMembers(symbol, raw[1..]);
      var tail := ParseRows(symbol, raw[1..]);
      forall k | 0 <= k < |tail| ensures raw[0].openTime <= tail[k].timestamp {
        assert tail[k] in tail;
        var i :| 0 <= i < |raw[1..]| && Coercible(raw[1..][i]) && Project(symbol, raw[1..][i]) == tail[k];
        assert raw[1..][i] == raw[i + 1];
      }
    }
  }

  lemma SortedByBucket(s: seq<Candle>, g: Bucketing)
    requires CandlesSorted(s)
    ensures SortedBy(s, g)
  {
    forall i, j | 0 <= i < j < |s| ensures BucketOf(g, s[i].timestamp) <= BucketOf(g, s[j].timestamp) {
      BucketMonotone(g, s[i].timestamp, s[j].timestamp);
    }
  }

  lemma {:induction false} SymbolRowsAppend(a: seq<Candle>, b: seq<Candle>, symbol: string)
    ensures SymbolRows(a + b, symbol) == SymbolRows(a, symbol) + SymbolRows(b, symbol)
  {
    if a == [] {
      assert a + b == b;
    } else {
      AppendParts(a, b);
      SymbolRowsAppend(a[1..], b, symbol);
      var h := if a[0].symbol == symbol then [a[0]] else [];
      assert SymbolRows(a + b, symbol) == h + SymbolRows(a[1..] + b, symbol);
      assert SymbolRows(a, symbol) == h + SymbolRows(a[1..], symbol);
    }
  }

  /** Selecting one symbol from rows that all carry symbol `other`. */
  lemma {:induction false} SymbolRowsOfOne(rows: seq<Candle>, other: string, symbol: string)
    requires forall k :: 0 <= k < |rows| ==> rows[k].symbol == other
    ensures SymbolRows(rows, symbol) == if symbol == other then rows else []
  {
    if rows != [] {
      SymbolRowsOfOne(rows[1..], other, symbol);
      assert [rows[0]] + rows[1..] == rows;
    }
  }

  /** Appending one item of the dictionary: the bars map gains (or keeps)
      that item's entry only when it contributes rows. */
  lemma PerSymbolSnoc(items: seq<(string, seq<Kline>)>, g: Bucketing)
    requires items != []
    ensures var init, last := items[..|items| - 1], items[|items| - 1];
      PerSymbol(ParsedItems(items), g) ==
        if Contribution(last) == [] then PerSymbol(ParsedItems(init), g)
        else PerSymbol(ParsedItems(init), g)[last.0 := Resample(last.0, SortByTime(Contribution(last)), g)]
  {
    ParsedItemsSnoc(items);
    var init, last := items[..|items| - 1], items[|items| - 1];
    var dfs := ParsedItems(items);
    if ParseSymbol(last.0, last.1) != [] {
      assert dfs[|dfs| - 1] == (last.0, Contribution(last));
    } else {
      assert Contribution(last) == [];
    }
  }

  /** `all_dfs` after one more item: unchanged when the item is skipped,
      otherwise one more frame holding the item's rows. */
  lemma ParsedItemsSnoc(items: seq<(string, seq<Kline>)>)
    requires items != []
    ensures var init, last := items[..|items| - 1], items[|items| - 1];
      ParseSymbol(last.0, last.1) == [] ==> ParsedItems(items) == ParsedItems(init)
    ensures var init, last := items[..|items| - 1], items[|items| - 1];
      ParseSymbol(last.0, last.1) != [] ==>
        && ParsedItems(items) == ParsedItems(init) + [(last.0, Contribution(last))]
        && ParsedItems(items)[..|ParsedItems(items)| - 1] == ParsedItems(init)
  {
    var init, last := items[..|items| - 1], items[|items| - 1];
    var dfs, dfs0 := ParsedItems(items), ParsedItems(init);
    if ParseSymbol(last.0, last.1) != [] {
      assert dfs == dfs0 + [(last.0, Contribution(last))];
      assert dfs[..|dfs| - 1] == dfs0;
    }
  }

  /** With distinct keys, the last key is not among the earlier ones. */
  lemma LastSymbolIsNew(items: seq<(string, seq<Kline>)>)
    requires DistinctSymbols(items) && items != []
    ensures items[|items| - 1].0 !in Symbols(items[..|items| - 1])
  {
    var init := items[..|items| - 1];
    forall j | 0 <= j < |init| ensures Symbols(init)[j] != items[|items| - 1].0 {
      assert Symbols(init)[j] == items[j].0;
    }
  }

  lemma SymbolsSnoc(items: seq<(string, seq<Kline>)>)
    requires items != []
    ensures Symbols(items) == Symbols(items[..|items| - 1]) + [items[|items| - 1].0]
  {
    var init := items[..|items| - 1];
    var a, b := Symbols(items), Symbols(init) + [items[|items| - 1].0];
    assert |a| == |b|;
    forall j | 0 <= j < |a| ensures a[j] == b[j] {
      if j < |init| {
        assert b[j] == Symbols(init)[j] == init[j].0;
      }
    }
  }

  /** The hourly rows built from a prefix of the dictionary carry only that
      prefix's symbols. */
  lemma {:induction false} ParsedRowSymbols(items: seq<(string, seq<Kline>)>)
    ensures var rows := Concat(ParsedItems(items));
      forall k :: 0 <= k < |rows| ==> rows[k].symbol in Symbols(items)
  {
    if items != [] {
      var init, last := items[..|items| - 1], items[|items| - 1];
      ParsedRowSymbols(init);
      ConcatSnoc(items);
      SymbolsSnoc(items);
      RowSymbolsAppend(Concat(ParsedItems(init)), Contribution(last), Symbols(init), last.0);
    }
  }

  lemma ConcatSnoc(items: seq<(string, seq<Kline>)>)
    requires items != []
    ensures Concat(ParsedItems(items)) ==
            Concat(ParsedItems(items[..|items| - 1])) + Contribution(items[|items| - 1])
  {
    ParsedItemsSnoc(items);
    var init, last := items[..|items| - 1], items[|items| - 1];
    if ParseSymbol(last.0, last.1) == [] {
      assert Contribution(last) == [];
      assert Concat(ParsedItems(init)) + [] == Concat(ParsedItems(init));
    }
  }

  lemma RowSymbolsAppend(rows0: seq<Candle>, rows1: seq<Candle>, syms: seq<string>, sym: string)
    requires forall k :: 0 <= k < |rows0| ==> rows0[k].symbol in syms
    requires forall k :: 0 <= k < |rows1| ==> rows1[k].symbol == sym
    ensures forall k :: 0 <= k < |rows0 + rows1| ==> (rows0 + rows1)[k].symbol in syms + [sym]
  {
  }

  /** The per-symbol bars built from a prefix of the dictionary are keyed
      only by that prefix's symbols. */
  lemma {:induction false} ParsedKeySymbols(items: seq<(string, seq<Kline>)>, g: Bucketing)
    ensures forall sym :: sym in PerSymbol(ParsedItems(items), g) ==> sym in Symbols(items)
  {
    if items != [] {
      var init := items[..|items| - 1];
      ParsedKeySymbols(init, g);
      PerSymbolSnoc(items, g);
      SymbolsSnoc(items);
    }
  }

  /** The hourly rows of one requested symbol are exactly its raw rows
      that survive parsing, in order. */
  lemma {:induction false} SymbolRowsOfItems(items: seq<(string, seq<Kline>)>, i: nat)
    requires DistinctSymbols(items) && i < |items|
    ensures SymbolRows(Concat(ParsedItems(items)), items[i].0) == Contribution(items[i])
    decreases |items|
  {
    var init, last := items[..|items| - 1], items[|items| - 1];
    var rows0, lastRows := Concat(ParsedItems(init)), Contribution(last);
    var sym := items[i].0;
    assert DistinctSymbols(init);
    ConcatSnoc(items);
    SymbolRowsAppend(rows0, lastRows, sym);
    SymbolRowsOfOne(lastRows, last.0, sym);
    if i == |items| - 1 {
      ParsedRowSymbols(init);
      LastSymbolIsNew(items);
      SymbolRowsNone(rows0, sym);
    } else {
      assert items[i] == init[i];
      SymbolRowsOfItems(init, i);
    }
  }

  /** `m` holds bars for `sym` exactly when `rows` is non-empty, and then
      they are `rows`, sorted by time, resampled. */
  predicate BarsFor(m: map<string, seq<Bar>>, sym: string, rows: seq<Candle>, g: Bucketing) {
    (rows == [] ==> sym !in m) && (rows != [] ==> sym in m && m[sym] == Resample(sym, SortByTime(rows), g))
  }

  /** One requested symbol has bars exactly when it contributes rows, and
      they are those rows resampled. */
  lemma {:induction false} BarsOfItems(items: seq<(string, seq<Kline>)>, i: nat, g: Bucketing)
    requires DistinctSymbols(items) && i < |items|
    ensures BarsFor(PerSymbol(ParsedItems(items), g), items[i].0, Contribution(items[i]), g)
    decreases |items|
  {
    var init, last := items[..|items| - 1], items[|items| - 1];
    var m, m0 := PerSymbol(ParsedItems(items), g), PerSymbol(ParsedItems(init), g);
    var sym, c, cl := items[i].0, Contribution(items[i]), Contribution(last);
    assert DistinctSymbols(init);
    PerSymbolSnoc(items, g);
    assert m == if cl == [] then m0 else m0[last.0 := Resample(last.0, SortByTime(cl), g)];
    if i == |items| - 1 {
      ParsedKeySymbols(init, g);
      LastSymbolIsNew(items);
      assert sym !in m0;
    } else {
      assert items[i] == init[i];
      BarsOfItems(init, i, g);
      assert BarsFor(m0, sym, c, g);
      assert sym != last.0;
    }
  }

  /** What the caller reads for one requested symbol: its hourly rows are
      exactly its raw rows that survive parsing, in order; it has daily and
      weekly bars exactly when it has hourly rows, and those bars are its
      rows, sorted by time, resampled. */
  lemma TransformOfSymbol(items: seq<(string, seq<Kline>)>, i: nat, g: Bucketing)
    requires DistinctSymbols(items) && i < |items|
    ensures var dfs := ParsedItems(items); var sym := items[i].0; var c := Contribution(items[i]);
      && SymbolRows(Concat(dfs), sym) == c
      && (c == [] ==> sym !in PerSymbol(dfs, g))
      && (c != [] ==> sym in PerSymbol(dfs, g) && PerSymbol(dfs, g)[sym] == Resample(sym, SortByTime(c), g))
  {
    SymbolRowsOfItems(items, i);
    BarsOfItems(items, i, g);
  }

  /** A source with two hourly rows of history, one per page, answering
      the `endTime` cursor as the exchange does. */
  function TwoPages(attempt: nat, endTime: Option<int>): Response {
    if endTime == None then Page([Kline(7_200_000, [])])
    else if endTime == Some(7_200_000) then Page([Kline(3_600_000, [])])
    else Page([])
  }

  /** Paging backwards delivers the newer page first: a symbol with two
      pages of history is fetched newest page first, so its raw rows are not
      in time order, and only `resample`'s own sort puts them in order. */
  lemma NewestPageFirst()
    ensures Fetched(TwoPages, 42) == [Kline(7_200_000, []), Kline(3_600_000, [])]
    ensures !TimeSorted(Fetched(TwoPages, 42))
  {
    assert Budget(42) == 2;
    var first, second := Kline(7_200_000, []), Kline(3_600_000, []);
    assert TwoPages(0, Request(None, None)) == Page([first]);
    assert TwoPages(1, Request(None, Some(first.openTime))) == Page([second]);
    assert [] + [first] == [first];
    assert Run(TwoPages, 2, 0, Loop(None, None, [])) == Run(TwoPages, 1, 1, Loop(None, Some(first.openTime), [first]));
    assert Run(TwoPages, 1, 1, Loop(None, Some(first.openTime), [first]))
        == Run(TwoPages, 0, 2, Loop(Some(first.openTime), Some(second.openTime), [first] + [second]));
    var rows := Fetched(TwoPages, 42);
    assert rows[0].openTime > rows[1].openTime;
  }

  /** Coverage depends only on which rows there are, not on their order. */
  lemma CoversPermuted(r: seq<Bar>, s: seq<Candle>, sorted: seq<Candle>, g: Bucketing)
    requires multiset(s) == multiset(sorted) && Covers(r, sorted, g)
    ensures Covers(r, s, g)
  {
    forall i | 0 <= i < |s| ensures BucketOf(g, s[i].timestamp) in Labels(r) {
      assert s[i] in multiset(sorted);
      var j :| 0 <= j < |sorted| && sorted[j] == s[i];
    }
  }

  /** For every requested symbol, in whatever order its pages arrived:
      every bar of its daily or weekly series aggregates exactly the hourly
      rows of its bucket, in time order (rows with equal times in arrival
      order); every bucket holding one of its rows has a bar; and the bars
      are in ascending bucket order. */
  lemma SymbolBarsGroupByBucket(items: seq<(string, seq<Kline>)>, i: nat, g: Bucketing)
    requires DistinctSymbols(items) && i < |items|
    ensures var dfs := ParsedItems(items); var sym := items[i].0;
      var rows := SymbolRows(Concat(dfs), sym);
      rows != [] ==>
        && sym in PerSymbol(dfs, g)
        && AggregatesMembers(sym, PerSymbol(dfs, g)[sym], SortByTime(rows), g)
        && Covers(PerSymbol(dfs, g)[sym], rows, g)
        && Ascending(PerSymbol(dfs, g)[sym])
  {
    var sym, c := items[i].0, Contribution(items[i]);
    TransformOfSymbol(items, i, g);
    if c != [] {
      var sorted := SortByTime(c);
      SortByTimeSorted(c);
      SortedByBucket(sorted, g);
      ResampleIsGroupByBucket(sym, sorted, g);
      CoversPermuted(Resample(sym, sorted, g), c, sorted, g);
    }
  }

  lemma {:induction false} SymbolRowsNone(rows: seq<Candle>, symbol: string)
    requires forall k :: 0 <= k < |rows| ==> rows[k].symbol != symbol
    ensures SymbolRows(rows, symbol) == []
  {
    if rows != [] {
      SymbolRowsNone(rows[1..], symbol);
    }
  }

  /** The hourly frame is empty exactly when no item contributes a row. */
  lemma {:induction false} ConcatEmpty(items: seq<(string, seq<Kline>)>)
    ensures Concat(ParsedItems(items)) == [] <==> forall i :: 0 <= i < |items| ==> Contribution(items[i]) == []
  {
    ConcatEmptyStep(items);
    NoRowsPointwise(items);
  }

  /** No item contributes a row, stated item by item from the back. */
  predicate NoRows(items: seq<(string, seq<Kline>)>) {
    items == [] || (NoRows(items[..|items| - 1]) && Contribution(items[|items| - 1]) == [])
  }

  lemma {:induction false} ConcatEmptyStep(items: seq<(string, seq<Kline>)>)
    ensures Concat(ParsedItems(items)) == [] <==> NoRows(items)
  {
    if items != [] {
      ConcatEmptyStep(items[..|items| - 1]);
      ConcatSnoc(items);
    }
  }

  lemma {:induction false} NoRowsPointwise(items: seq<(string, seq<Kline>)>)
    ensures NoRows(items) <==> forall i :: 0 <= i < |items| ==> Contribution(items[i]) == []
  {
    if items != [] {
      var init := items[..|items| - 1];
      NoRowsPointwise(init);
      var c := Contribution(items[|items| - 1]);
      if NoRows(items) {
        assert NoRows(init) && c == [];
        forall i | 0 <= i < |items| ensures Contribution(items[i]) == [] {
          if i < |init| {
            assert items[i] == init[i];
          } else {
            assert i == |items| - 1;
          }
        }
      }
      if forall i :: 0 <= i < |items| ==> Contribution(items[i]) == [] {
        forall i | 0 <= i < |init| ensures Contribution(init[i]) == [] {
          assert init[i] == items[i];
        }
        assert NoRows(init) && c == [];
      }
    }
  }

  /** `(None, None, None)` is returned exactly when no symbol has a row that
      survives parsing (in particular for an empty dictionary). */
  lemma TransformNone(items: seq<(string, seq<Kline>)>, weekly: Bucketing)
    ensures Transform(items, weekly).None? <==>
            forall i :: 0 <= i < |items| ==> Contribution(items[i]) == []
  {
    ConcatEmpty(items);
  }

  /** `transform_and_save_multi`: the per-symbol loop that fills `all_dfs`,
      then the hourly, daily and weekly frames. */
  method TransformAndSaveMulti(items: seq<(string, seq<Kline>)>, weekly: Bucketing) returns (frames: Option<Frames>)
    ensures frames == Transform(items, weekly)
  {
    if items == [] {
      return None;
    }
    var allDfs: seq<(string, seq<Candle>)> := [];
    var i := 0;
    while i < |items|
      invariant 0 <= i <= |items|
      invariant allDfs == ParsedItems(items[..i])
    {
      assert items[..i + 1][..i] == items[..i];
      var (symbol, raw) := items[i];
      if raw == [] {
        i := i + 1;
        continue;
      }
      if Frameable(raw) {
        allDfs := allDfs + [(symbol, ParseRows(symbol, raw))];
      }
      i := i + 1;
    }
    assert items[..i] == items;
    if allDfs == [] {
      return None;
    }
    var combined := Concat(allDfs);
    if combined == [] {
      return None;
    }
    frames := Some(Frames(combined, PerSymbol(allDfs, Daily), PerSymbol(allDfs, weekly)));
  }
}
