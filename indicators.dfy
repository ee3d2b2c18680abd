/** The indicator engine (`analyze_trend`, `analyze_momentum`): pure
    functions of a symbol's close prices. Prices are `real`; a pandas value
    that is NaN (a rolling mean over too few rows, `0 / 0`) is `None`, and
    every comparison with `None` is false, as every comparison with NaN is. */
module Indicators {
  import opened Wrappers

  // ---------------------------------------------------------------------------
  // Sums and means

  function Sum(s: seq<real>): real {
    if s == [] then 0.0 else s[0] + Sum(s[1..])
  }

  function Mean(s: seq<real>): (r: real)
    requires s != []
    ensures (forall i :: 0 <= i < |s| ==> s[i] >= 0.0) ==> r >= 0.0
  {
    SumNonNegative(s);
    Sum(s) / |s| as real
  }

  /** `rolling(window=w).mean().iloc[-1]`: the mean of the last `w` values,
      NaN when there are fewer than `w`. */
  function RollingLast(x: seq<real>, w: nat): (r: Option<real>)
    requires w > 0
    ensures r.Some? <==> |x| >= w
  {
    if |x| >= w then Some(Mean(x[|x| - w..])) else None
  }

  /** `a > b` on floats that may be NaN. */
  predicate Gt(a: Option<real>, b: Option<real>) {
    a.Some? && b.Some? && a.value > b.value
  }

  /** `a < b` on floats that may be NaN. */
  predicate Lt(a: Option<real>, b: Option<real>) {
    a.Some? && b.Some? && a.value < b.value
  }

  lemma {:induction false} SumAppend(a: seq<real>, b: seq<real>)
    ensures Sum(a + b) == Sum(a) + Sum(b)
  {
    if a == [] {
      assert a + b == b;
    } else {
      assert (a + b)[1..] == a[1..] + b;
      SumAppend(a[1..], b);
    }
  }

  lemma AddOneCopy(n: nat, m: real)
    requires n >= 1
    ensures n as real * m == m + (n - 1) as real * m
  {
  }

  /** A sum of elements that are all at least `m` is at least `|s|` copies of `m`. */
  lemma {:induction false} SumAtLeast(s: seq<real>, m: real)
    requires forall i :: 0 <= i < |s| ==> s[i] >= m
    ensures Sum(s) >= |s| as real * m
  {
    if s != [] {
      forall i | 0 <= i < |s| - 1 ensures s[1..][i] >= m {
        assert s[1..][i] == s[i + 1];
      }
      SumAtLeast(s[1..], m);
      AddOneCopy(|s|, m);
    }
  }

  /** A sum of elements that are all at most `m` is at most `|s|` copies of `m`. */
  lemma {:induction false} SumAtMost(s: seq<real>, m: real)
    requires forall i :: 0 <= i < |s| ==> s[i] <= m
    ensures Sum(s) <= |s| as real * m
  {
    if s != [] {
      forall i | 0 <= i < |s| - 1 ensures s[1..][i] <= m {
        assert s[1..][i] == s[i + 1];
      }
      SumAtMost(s[1..], m);
      AddOneCopy(|s|, m);
    }
  }

  /** A sum of non-negative values is non-negative, and zero exactly when
      every value is zero. */
  lemma {:induction false} SumNonNegative(s: seq<real>)
    ensures (forall i :: 0 <= i < |s| ==> s[i] >= 0.0) ==>
      && Sum(s) >= 0.0
      && (Sum(s) == 0.0 <==> forall i :: 0 <= i < |s| ==> s[i] == 0.0)
  {
    if s != [] {
      SumNonNegative(s[1..]);
    }
  }

  // ---------------------------------------------------------------------------
  // Trend

  datatype Trend = Bullish | Bearish | Range | Unknown

  /** `analyze_trend`: the 10-row against the 50-row moving average of the
      closes; `iloc[-1]` on an empty series raises, which gives Unknown. */
  function AnalyzeTrend(closes: seq<real>): Trend {
    if closes == [] then Unknown
    else
      var short, long := RollingLast(closes, 10), RollingLast(closes, 50);
      if Gt(short, long) then Bullish
      else if Lt(short, long) then Bearish
      else Range
  }

  /** Unknown only for no rows; fewer than 50 rows leave the long average
      NaN, so both comparisons are false and the answer is Range; from 50
      rows on the two means decide. */
  lemma TrendCases(closes: seq<real>)
    ensures AnalyzeTrend(closes) == Unknown <==> closes == []
    ensures 0 < |closes| < 50 ==> AnalyzeTrend(closes) == Range
    ensures |closes| >= 50 ==>
      var short, long := Mean(closes[|closes| - 10..]), Mean(closes[|closes| - 50..]);
      && (AnalyzeTrend(closes) == Bullish <==> short > long)
      && (AnalyzeTrend(closes) == Bearish <==> short < long)
      && (AnalyzeTrend(closes) == Range <==> short == long)
  {
  }

  predicate StrictlyIncreasing(x: seq<real>) {
    forall i, j :: 0 <= i < j < |x| ==> x[i] < x[j]
  }

  predicate StrictlyDecreasing(x: seq<real>) {
    forall i, j :: 0 <= i < j < |x| ==> x[i] > x[j]
  }

  predicate Constant(x: seq<real>) {
    forall i :: 0 <= i < |x| ==> x[i] == x[0]
  }

  /** The last 50 closes split into the older 40 and the last 10: the short
      average exceeds the long one by a fifth of `4 * newer - older`. */
  lemma SplitLast50(x: seq<real>)
    requires |x| >= 50
    ensures var y := x[|x| - 50..];
      Mean(x[|x| - 10..]) - Mean(y) == (4.0 * Sum(y[40..]) - Sum(y[..40])) / 50.0
  {
    var y := x[|x| - 50..];
    assert y == y[..40] + y[40..];
    assert x[|x| - 10..] == y[40..];
    SumAppend(y[..40], y[40..]);
  }

  /** A rising series is Bullish: the last 10 closes all lie above the
      older 40, so their mean exceeds the 50-row mean. */
  lemma TrendOfRisingCloses(x: seq<real>)
    requires |x| >= 50 && StrictlyIncreasing(x)
    ensures AnalyzeTrend(x) == Bullish
  {
    var n, y := |x|, x[|x| - 50..];
    SplitLast50(x);
    var older, m := x[n - 11], x[n - 10];
    forall i | 0 <= i < 40 ensures y[..40][i] <= older {
      assert y[..40][i] == x[n - 50 + i];
    }
    forall i | 0 <= i < 10 ensures y[40..][i] >= m {
      assert y[40..][i] == x[n - 10 + i];
    }
    SumAtMost(y[..40], older);
    SumAtLeast(y[40..], m);
    assert older < m;
  }

  /** A falling series is Bearish. */
  lemma TrendOfFallingCloses(x: seq<real>)
    requires |x| >= 50 && StrictlyDecreasing(x)
    ensures AnalyzeTrend(x) == Bearish
  {
    var n, y := |x|, x[|x| - 50..];
    SplitLast50(x);
    var older, m := x[n - 11], x[n - 10];
    forall i | 0 <= i < 40 ensures y[..40][i] >= older {
      assert y[..40][i] == x[n - 50 + i];
    }
    forall i | 0 <= i < 10 ensures y[40..][i] <= m {
      assert y[40..][i] == x[n - 10 + i];
    }
    SumAtLeast(y[..40], older);
    SumAtMost(y[40..], m);
    assert older > m;
  }

  /** A flat series is Range at any length. */
  lemma TrendOfFlatCloses(x: seq<real>)
    requires x != [] && Constant(x)
    ensures AnalyzeTrend(x) == Range
  {
    if |x| >= 50 {
      var c := x[0];
      var y, z := x[|x| - 50..], x[|x| - 10..];
      assert forall i :: 0 <= i < |y| ==> y[i] == c;
      assert forall i :: 0 <= i < |z| ==> z[i] == c;
      SumAtLeast(y, c);
      SumAtMost(y, c);
      SumAtLeast(z, c);
      SumAtMost(z, c);
    }
  }

  // ---------------------------------------------------------------------------
  // RSI

  /** `delta.where(delta > 0, 0)` at row `i`; the first delta is NaN, which
      fails `> 0` and so becomes 0. */
  function Gain(x: seq<real>, i: nat): real
    requires i < |x|
  {
    if i == 0 || x[i] - x[i - 1] <= 0.0 then 0.0 else x[i] - x[i - 1]
  }

  /** `-delta.where(delta < 0, 0)` at row `i`. */
  function Loss(x: seq<real>, i: nat): real
    requires i < |x|
  {
    if i == 0 || x[i] - x[i - 1] >= 0.0 then 0.0 else x[i - 1] - x[i]
  }

  const RsiWindow: nat := 14

  /** The gains over the last 14 rows. */
  function GainWindow(x: seq<real>): (w: seq<real>)
    requires |x| >= RsiWindow
    ensures |w| == RsiWindow
    ensures forall k :: 0 <= k < |w| ==> w[k] == Gain(x, |x| - RsiWindow + k) && w[k] >= 0.0
  {
    seq(RsiWindow, k requires 0 <= k < RsiWindow => Gain(x, |x| - RsiWindow + k))
  }

  /** The losses over the last 14 rows. */
  function LossWindow(x: seq<real>): (w: seq<real>)
    requires |x| >= RsiWindow
    ensures |w| == RsiWindow
    ensures forall k :: 0 <= k < |w| ==> w[k] == Loss(x, |x| - RsiWindow + k) && w[k] >= 0.0
  {
    seq(RsiWindow, k requires 0 <= k < RsiWindow => Loss(x, |x| - RsiWindow + k))
  }

  /** `rsi.iloc[-1]`, with `rs = gain / loss` and `100 - 100 / (1 + rs)`:
      undefined below 14 rows; a window without losses gives `rs = inf`
      and RSI 100 when it has gains, and `0 / 0 = NaN` when it has none. */
  function Rsi(x: seq<real>): Option<real> {
    if |x| < RsiWindow then None
    else
      var gain, loss := Mean(GainWindow(x)), Mean(LossWindow(x));
      if loss == 0.0 then (if gain == 0.0 then None else Some(100.0))
      else Some(100.0 - 100.0 / (1.0 + gain / loss))
  }

  /** No price change in the rows the window covers (the first row has none). */
  predicate FlatWindow(x: seq<real>) {
    forall i :: |x| - RsiWindow <= i < |x| && 0 < i ==> x[i] == x[i - 1]
  }

  /** Every price change the window covers is a rise, and one is strict. */
  predicate GainsOnly(x: seq<real>) {
    (forall i :: |x| - RsiWindow <= i < |x| && 0 < i ==> x[i] >= x[i - 1]) &&
    (exists i :: |x| - RsiWindow <= i < |x| && 0 < i && x[i] > x[i - 1])
  }

  /** Every price change the window covers is a fall, and one is strict. */
  predicate LossesOnly(x: seq<real>) {
    (forall i :: |x| - RsiWindow <= i < |x| && 0 < i ==> x[i] <= x[i - 1]) &&
    (exists i :: |x| - RsiWindow <= i < |x| && 0 < i && x[i] < x[i - 1])
  }

  /** The window's average gain is zero exactly when it covers no rise. */
  lemma GainMeanZero(x: seq<real>)
    requires |x| >= RsiWindow
    ensures Mean(GainWindow(x)) == 0.0 <==>
            forall i :: |x| - RsiWindow <= i < |x| && 0 < i ==> x[i] <= x[i - 1]
  {
    var n, g := |x|, GainWindow(x);
    SumNonNegative(g);
    if Mean(g) == 0.0 {
      forall i | n - RsiWindow <= i < n && 0 < i ensures x[i] <= x[i - 1] {
        assert g[i - (n - RsiWindow)] == Gain(x, i) == 0.0;
      }
    }
    if forall i :: n - RsiWindow <= i < n && 0 < i ==> x[i] <= x[i - 1] {
      forall k | 0 <= k < RsiWindow ensures g[k] == 0.0 {
        assert g[k] == Gain(x, n - RsiWindow + k);
      }
    }
  }

  /** The window's average loss is zero exactly when it covers no fall. */
  lemma LossMeanZero(x: seq<real>)
    requires |x| >= RsiWindow
    ensures Mean(LossWindow(x)) == 0.0 <==>
            forall i :: |x| - RsiWindow <= i < |x| && 0 < i ==> x[i] >= x[i - 1]
  {
    var n, l := |x|, LossWindow(x);
    SumNonNegative(l);
    if Mean(l) == 0.0 {
      forall i | n - RsiWindow <= i < n && 0 < i ensures x[i] >= x[i - 1] {
        assert l[i - (n - RsiWindow)] == Loss(x, i) == 0.0;
      }
    }
    if forall i :: n - RsiWindow <= i < n && 0 < i ==> x[i] >= x[i - 1] {
      forall k | 0 <= k < RsiWindow ensures l[k] == 0.0 {
        assert l[k] == Loss(x, n - RsiWindow + k);
      }
    }
  }

  /** RSI is NaN exactly below 14 rows or over a window without any price
      change; when it is defined it lies between 0 and 100. */
  lemma RsiDefinedAndBounded(x: seq<real>)
    ensures Rsi(x).None? <==> |x| < RsiWindow || FlatWindow(x)
    ensures Rsi(x).Some? ==> 0.0 <= Rsi(x).value <= 100.0
  {
    if |x| >= RsiWindow {
      GainMeanZero(x);
      LossMeanZero(x);
      var gain, loss := Mean(GainWindow(x)), Mean(LossWindow(x));
      if loss != 0.0 {
        var q := 1.0 + gain / loss;
        assert gain / loss >= 0.0;
        assert q >= 1.0;
        assert 100.0 / q <= 100.0 by {
          assert 100.0 / q * q == 100.0;
        }
        assert 100.0 / q > 0.0;
      }
    }
  }

  /** A window of rises only gives RSI 100. */
  lemma RsiOfGainsOnly(x: seq<real>)
    requires |x| >= RsiWindow && GainsOnly(x)
    ensures Rsi(x) == Some(100.0)
  {
    GainMeanZero(x);
    LossMeanZero(x);
  }

  /** A window of falls only gives RSI 0. */
  lemma RsiOfLossesOnly(x: seq<real>)
    requires |x| >= RsiWindow && LossesOnly(x)
    ensures Rsi(x) == Some(0.0)
  {
    GainMeanZero(x);
    LossMeanZero(x);
    var gain, loss := Mean(GainWindow(x)), Mean(LossWindow(x));
    assert gain == 0.0 && loss > 0.0;
    assert gain / loss == 0.0;
  }

  datatype RsiState = Overbought | Oversold | RsiNeutral

  /** The RSI thresholds: above 70, below 30, anything else (NaN included). */
  function RsiStateOf(rsi: Option<real>): RsiState {
    if Gt(rsi, Some(70.0)) then Overbought
    else if Lt(rsi, Some(30.0)) then Oversold
    else RsiNeutral
  }

  /** The RSI state of a close series: Neutral below 14 rows or over a flat
      window; Overbought over rises only; Oversold over falls only. */
  lemma RsiStates(x: seq<real>)
    ensures |x| < RsiWindow || FlatWindow(x) ==> RsiStateOf(Rsi(x)) == RsiNeutral
    ensures |x| >= RsiWindow && GainsOnly(x) ==> RsiStateOf(Rsi(x)) == Overbought
    ensures |x| >= RsiWindow && LossesOnly(x) ==> RsiStateOf(Rsi(x)) == Oversold
  {
    RsiDefinedAndBounded(x);
    if |x| >= RsiWindow && GainsOnly(x) {
      RsiOfGainsOnly(x);
    }
    if |x| >= RsiWindow && LossesOnly(x) {
      RsiOfLossesOnly(x);
    }
  }

  // ---------------------------------------------------------------------------
  // MACD

  /** The smoothing factor of `ewm(span=s)`. */
  function Alpha(span: nat): (a: real)
    requires span >= 1
    ensures 0.0 < a <= 1.0
  {
    2.0 / (span as real + 1.0)
  }

  /** One step of the recurrence: move from `prev` towards `next` by
      `alpha` of the gap. */
  function Step(prev: real, next: real, alpha: real): real {
    prev + alpha * (next - prev)
  }

  /** `ewm(span, adjust=False).mean()`: the first value is the first input,
      each later value is one step from the previous value towards the input. */
  function Ema(x: seq<real>, alpha: real): (y: seq<real>)
    ensures |y| == |x|
    decreases |x|
  {
    if |x| <= 1 then x
    else
      var p := Ema(x[..|x| - 1], alpha);
      p + [Step(p[|p| - 1], x[|x| - 1], alpha)]
  }

  lemma EmaSnoc(x: seq<real>, alpha: real)
    requires |x| > 1
    ensures Ema(x, alpha) == Ema(x[..|x| - 1], alpha) + [Step(Ema(x[..|x| - 1], alpha)[|x| - 2], x[|x| - 1], alpha)]
  {
  }

  /** The recurrence, element by element: the first average is the first
      input, and each later one is a step from its predecessor. */
  lemma {:induction false} EmaRecurrence(x: seq<real>, alpha: real)
    ensures x != [] ==> Ema(x, alpha)[0] == x[0]
    ensures forall t :: 0 < t < |x| ==> Ema(x, alpha)[t] == Step(Ema(x, alpha)[t - 1], x[t], alpha)
    decreases |x|
  {
    if |x| > 1 {
      var x0 := x[..|x| - 1];
      EmaRecurrence(x0, alpha);
      var y, p := Ema(x, alpha), Ema(x0, alpha);
      EmaSnoc(x, alpha);
      forall t | 0 < t < |x| ensures y[t] == Step(y[t - 1], x[t], alpha) {
        if t < |x| - 1 {
          assert y[t] == p[t] && y[t - 1] == p[t - 1] && x[t] == x0[t];
        } else {
          assert y[t - 1] == p[|p| - 1];
        }
      }
    }
  }

  lemma ScaleFraction(a: real, d: real)
    requires 0.0 <= a <= 1.0
    ensures d >= 0.0 ==> 0.0 <= a * d <= d
    ensures d <= 0.0 ==> d <= a * d <= 0.0
  {
    assert d - a * d == (1.0 - a) * d;
  }

  /** With `0 <= alpha <= 1` a step lands between its two inputs. */
  lemma StepBetween(prev: real, next: real, alpha: real)
    requires 0.0 <= alpha <= 1.0
    ensures prev <= next ==> prev <= Step(prev, next, alpha) <= next
    ensures next <= prev ==> next <= Step(prev, next, alpha) <= prev
  {
    var d := next - prev;
    ScaleFraction(alpha, d);
    assert Step(prev, next, alpha) == prev + alpha * d;
  }

  /** With `0 <= alpha <= 1` every average lies within the inputs' bounds. */
  lemma {:induction false} EmaBounded(x: seq<real>, alpha: real, lo: real, hi: real)
    requires 0.0 <= alpha <= 1.0
    requires forall i :: 0 <= i < |x| ==> lo <= x[i] <= hi
    ensures forall t :: 0 <= t < |x| ==> lo <= Ema(x, alpha)[t] <= hi
    decreases |x|
  {
    if |x| > 1 {
      var x0 := x[..|x| - 1];
      EmaBounded(x0, alpha, lo, hi);
      var p := Ema(x0, alpha);
      EmaSnoc(x, alpha);
      StepBetween(p[|p| - 1], x[|x| - 1], alpha);
    }
  }

  /** A flat input gives a flat average at the same level. */
  lemma EmaOfConstant(x: seq<real>, alpha: real)
    requires 0.0 <= alpha <= 1.0 && x != [] && Constant(x)
    ensures forall t :: 0 <= t < |x| ==> Ema(x, alpha)[t] == x[0]
  {
    EmaBounded(x, alpha, x[0], x[0]);
  }

  /** `ema_12 - ema_26`, row by row. */
  function MacdLine(x: seq<real>): (m: seq<real>)
    ensures |m| == |x|
  {
    var fast, slow := Ema(x, Alpha(12)), Ema(x, Alpha(26));
    seq(|x|, t requires 0 <= t < |x| => fast[t] - slow[t])
  }

  /** `macd_line.ewm(span=9, adjust=False).mean()`. */
  function SignalLine(x: seq<real>): (s: seq<real>)
    ensures |s| == |x|
  {
    Ema(MacdLine(x), Alpha(9))
  }

  datatype MacdState = MacdBullish | MacdBearish | MacdNeutral

  /** The MACD line's last value against the signal line's. */
  function MacdStateOf(x: seq<real>): MacdState
    requires x != []
  {
    var m, s := MacdLine(x)[|x| - 1], SignalLine(x)[|x| - 1];
    if m > s then MacdBullish else if m < s then MacdBearish else MacdNeutral
  }

  /** The MACD line never exceeds the range of the closes. */
  lemma MacdBounded(x: seq<real>, lo: real, hi: real)
    requires forall i :: 0 <= i < |x| ==> lo <= x[i] <= hi
    ensures forall t :: 0 <= t < |x| ==> lo - hi <= MacdLine(x)[t] <= hi - lo
  {
    EmaBounded(x, Alpha(12), lo, hi);
    EmaBounded(x, Alpha(26), lo, hi);
  }

  /** Flat closes give a zero MACD line and signal line, hence Neutral. */
  lemma MacdOfFlatCloses(x: seq<real>)
    requires x != [] && Constant(x)
    ensures forall t :: 0 <= t < |x| ==> MacdLine(x)[t] == 0.0 && SignalLine(x)[t] == 0.0
    ensures MacdStateOf(x) == MacdNeutral
  {
    MacdBounded(x, x[0], x[0]);
    var m := MacdLine(x);
    assert Constant(m) && m[0] == 0.0;
    EmaOfConstant(m, Alpha(9));
  }

  // ---------------------------------------------------------------------------
  // The momentum report

  /** What `analyze_momentum` returns: the two states with the last RSI
      (possibly NaN), MACD and signal values, or the fallback when the
      computation raises. */
  datatype Momentum =
    | Report(rsiState: RsiState, macdState: MacdState, rsi: Option<real>, macd: real, signal: real)
    | Failed

  /** `analyze_momentum`: `iloc[-1]` raises only on an empty series. */
  function AnalyzeMomentum(closes: seq<real>): Momentum {
    if closes == [] then Failed
    else
      var rsi := Rsi(closes);
      Report(RsiStateOf(rsi), MacdStateOf(closes), rsi,
             MacdLine(closes)[|closes| - 1], SignalLine(closes)[|closes| - 1])
  }

  function RsiLabel(s: RsiState): (r: string)
    ensures |r| >= 7
  {
    match s
    case Overbought => "Overbought"
    case Oversold => "Oversold"
    case RsiNeutral => "Neutral"
  }

  function MacdLabel(s: MacdState): (r: string)
    ensures |r| == 7
  {
    match s
    case MacdBullish => "Bullish"
    case MacdBearish => "Bearish"
    case MacdNeutral => "Neutral"
  }

  /** The `overview` string of the report. */
  function Overview(m: Momentum): string {
    match m
    case Report(r, d, _, _, _) => "RSI: " + RsiLabel(r) + " MACD: " + MacdLabel(d)
    case Failed => "Unknown"
  }

  /** Only the fallback report reads "Unknown". */
  lemma OverviewUnknown(m: Momentum)
    ensures Overview(m) == "Unknown" <==> m.Failed?
  {
    if m.Report? {
      assert |Overview(m)| >= 26;
    }
  }

  /** The overview is "Unknown" (with no numbers) exactly for no rows;
      otherwise it names the RSI and MACD states of the closes. */
  lemma MomentumOverview(closes: seq<real>)
    ensures Overview(AnalyzeMomentum(closes)) == "Unknown" <==> closes == []
    ensures closes != [] ==>
      Overview(AnalyzeMomentum(closes)) == "RSI: " + RsiLabel(RsiStateOf(Rsi(closes))) + " MACD: " + MacdLabel(MacdStateOf(closes))
  {
    OverviewUnknown(AnalyzeMomentum(closes));
  }

  /** Flat closes give a neutral RSI and a neutral MACD. */
  lemma MomentumOfFlatCloses(closes: seq<real>)
    requires closes != [] && Constant(closes)
    ensures AnalyzeMomentum(closes).rsiState == RsiNeutral
    ensures AnalyzeMomentum(closes).macdState == MacdNeutral
  {
    MacdOfFlatCloses(closes);
    assert FlatWindow(closes);
    RsiStates(closes);
  }
}
