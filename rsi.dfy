/** The indicator engine of `get_rsi_summary`: the relative strength index
    of a closing-price series, with pandas' NaN modelled as `None`. */
module Rsi {
  import opened Wrappers
  import opened Dates
  import opened Stats

  /** One row of the price history: its date and its closing price. */
  datatype PriceBar = PriceBar(date: Date, close: real)

  datatype Signal = Overbought | Oversold | Neutral

  /** The period `get_rsi_summary` uses when its caller passes none. */
  const DefaultPeriod := 14

  /** The text the summary reports for each band. */
  function SignalText(s: Signal): string {
    match s
    case Overbought => OverboughtText
    case Oversold => OversoldText
    case Neutral => NeutralText
  }

  const OverboughtText := "OVERBOUGHT (RSI > 70) - Potential sell signal"
  const OversoldText := "OVERSOLD (RSI < 30) - Potential buy signal"
  const NeutralText := "NEUTRAL (30 < RSI < 70) - No strong signal"

  /** The three texts differ, so the text alone tells the band. */
  lemma SignalTextsDistinct()
    ensures OverboughtText != OversoldText && OverboughtText != NeutralText && OversoldText != NeutralText
  {
    assert OverboughtText[4] == 'B' && OversoldText[4] == 'S' && NeutralText[4] == 'R';
  }

  function Closes(history: seq<PriceBar>): (c: seq<real>)
    ensures |c| == |history|
    ensures forall t :: 0 <= t < |history| ==> c[t] == history[t].close
  {
    seq(|history|, t requires 0 <= t < |history| => history[t].close)
  }

  /** Day-over-day change (`diff`): there is none at the first row. */
  function Delta(closes: seq<real>, t: nat): Option<real>
    requires t < |closes|
  {
    if t == 0 then None else Some(closes[t] - closes[t - 1])
  }

  /** A change split into (gain, loss), as `delta.where(delta > 0, 0.0)` and
      `-delta.where(delta < 0, 0.0)` do; a missing change is neither. */
  function Split(d: Option<real>): (r: (real, real))
    ensures r.0 >= 0.0 && r.1 >= 0.0
    ensures r.0 == 0.0 || r.1 == 0.0
    ensures d.Some? ==> r.0 - r.1 == d.value
    ensures d.None? ==> r == (0.0, 0.0)
  {
    match d
    case None => (0.0, 0.0)
    case Some(v) => (if v > 0.0 then v else 0.0, if v < 0.0 then -v else 0.0)
  }

  function Gains(closes: seq<real>): (g: seq<real>)
    ensures |g| == |closes|
    ensures forall t :: 0 <= t < |closes| ==> g[t] == Split(Delta(closes, t)).0
  {
    seq(|closes|, t requires 0 <= t < |closes| => Split(Delta(closes, t)).0)
  }

  function Losses(closes: seq<real>): (l: seq<real>)
    ensures |l| == |closes|
    ensures forall t :: 0 <= t < |closes| ==> l[t] == Split(Delta(closes, t)).1
  {
    seq(|closes|, t requires 0 <= t < |closes| => Split(Delta(closes, t)).1)
  }

  /** The smoothing factor of `ewm(span=period)`. */
  function Alpha(period: int): (a: real)
    requires period >= 1
    ensures 0.0 < a <= 1.0
  {
    2.0 / (period + 1) as real
  }

  /** The exponential moving average without bias correction (`adjust=False`). */
  function Ema(xs: seq<real>, alpha: real): (ys: seq<real>)
    ensures |ys| == |xs|
    decreases |xs|
  {
    if |xs| == 0 then []
    else if |xs| == 1 then [xs[0]]
    else
      var p := Ema(xs[..|xs| - 1], alpha);
      p + [(1.0 - alpha) * p[|p| - 1] + alpha * xs[|xs| - 1]]
  }

  /** The average starts at the first input and then follows
      y[t] = (1 - alpha) * y[t-1] + alpha * x[t]. */
  lemma {:induction false} EmaRecurrence(xs: seq<real>, alpha: real, t: nat)
    requires t < |xs|
    ensures t == 0 ==> Ema(xs, alpha)[0] == xs[0]
    ensures t > 0 ==> Ema(xs, alpha)[t] == (1.0 - alpha) * Ema(xs, alpha)[t - 1] + alpha * xs[t]
    decreases |xs|
  {
    if t < |xs| - 1 {
      var front := xs[..|xs| - 1];
      EmaRecurrence(front, alpha, t);
      assert Ema(xs, alpha)[..|xs| - 1] == Ema(front, alpha);
    }
  }

  /** A weighted average of two values in [lo, hi] stays in [lo, hi]. */
  lemma ConvexStep(alpha: real, y: real, x: real, lo: real, hi: real)
    requires 0.0 <= alpha <= 1.0 && lo <= y <= hi && lo <= x <= hi
    ensures lo <= (1.0 - alpha) * y + alpha * x <= hi
  {
    var v := (1.0 - alpha) * y + alpha * x;
    if x >= y {
      var w := alpha * (x - y);
      ScaleDown(alpha, x - y, w);
      assert v == y + w;
      assert v <= x;
    } else {
      var w := alpha * (y - x);
      ScaleDown(alpha, y - x, w);
      assert v == y - w;
      assert v >= x;
    }
  }

  /** Scaling a non-negative value by a factor in [0, 1] keeps it in [0, d]. */
  lemma ScaleDown(a: real, d: real, p: real)
    requires 0.0 <= a <= 1.0 && d >= 0.0 && p == a * d
    ensures 0.0 <= p <= d
  {
    assert d - p == (1.0 - a) * d;
  }

  /** The average of inputs in [lo, hi] stays in [lo, hi]; in particular the
      average of non-negative inputs is non-negative. */
  lemma {:induction false} EmaBounds(xs: seq<real>, alpha: real, lo: real, hi: real)
    requires 0.0 <= alpha <= 1.0
    requires forall t :: 0 <= t < |xs| ==> lo <= xs[t] <= hi
    ensures forall t :: 0 <= t < |xs| ==> lo <= Ema(xs, alpha)[t] <= hi
    decreases |xs|
  {
    if |xs| > 1 {
      var front := xs[..|xs| - 1];
      EmaBounds(front, alpha, lo, hi);
      var p := Ema(front, alpha);
      ConvexStep(alpha, p[|p| - 1], xs[|xs| - 1], lo, hi);
    }
  }

  /** Once the inputs are positive after the first, the average is positive
      after the first. */
  lemma {:induction false} EmaPositive(xs: seq<real>, alpha: real)
    requires 0.0 < alpha <= 1.0
    requires |xs| > 0 && xs[0] >= 0.0
    requires forall t :: 0 < t < |xs| ==> xs[t] > 0.0
    ensures forall t :: 0 < t < |xs| ==> Ema(xs, alpha)[t] > 0.0
    decreases |xs|
  {
    if |xs| > 1 {
      var front := xs[..|xs| - 1];
      EmaPositive(front, alpha);
      var p := Ema(front, alpha);
      EmaNonNegative(front, alpha);
      var y, x := p[|p| - 1], xs[|xs| - 1];
      ScaleDown(1.0 - alpha, y, (1.0 - alpha) * y);
      assert alpha * x > 0.0;
      assert Ema(xs, alpha)[|xs| - 1] == (1.0 - alpha) * y + alpha * x;
    }
  }

  /** The average of non-negative inputs is non-negative. */
  lemma {:induction false} EmaNonNegative(xs: seq<real>, alpha: real)
    requires 0.0 <= alpha <= 1.0
    requires forall t :: 0 <= t < |xs| ==> xs[t] >= 0.0
    ensures forall t :: 0 <= t < |xs| ==> Ema(xs, alpha)[t] >= 0.0
    decreases |xs|
  {
    if |xs| > 1 {
      var front := xs[..|xs| - 1];
      EmaNonNegative(front, alpha);
      var p := Ema(front, alpha);
      ScaleDown(1.0 - alpha, p[|p| - 1], (1.0 - alpha) * p[|p| - 1]);
      ScaleDown(alpha, xs[|xs| - 1], alpha * xs[|xs| - 1]);
    }
  }

  /** RS = avgGain / avgLoss with a zero loss undefined, and
      RSI = 100 - 100 / (1 + RS). */
  function RsiOf(avgGain: real, avgLoss: real): (r: Option<real>)
    requires avgGain >= 0.0 && avgLoss >= 0.0
    ensures r.None? <==> avgLoss == 0.0
    ensures r.Some? ==> 0.0 <= r.value < 100.0
    ensures r.Some? ==> (r.value == 0.0 <==> avgGain == 0.0)
  {
    if avgLoss == 0.0 then None
    else
      var rs := avgGain / avgLoss;
      assert rs >= 0.0;
      var d := 100.0 / (1.0 + rs);
      assert 0.0 < d <= 100.0 by {
        assert d * (1.0 + rs) == 100.0;
      }
      assert d == 100.0 <==> rs == 0.0 by {
        assert d * (1.0 + rs) == 100.0;
      }
      Some(100.0 - d)
  }

  function AverageGains(closes: seq<real>, period: int): (g: seq<real>)
    requires period >= 1
    ensures |g| == |closes|
    ensures forall t :: 0 <= t < |g| ==> g[t] >= 0.0
  {
    var gains := Gains(closes);
    EmaNonNegative(gains, Alpha(period));
    Ema(gains, Alpha(period))
  }

  function AverageLosses(closes: seq<real>, period: int): (l: seq<real>)
    requires period >= 1
    ensures |l| == |closes|
    ensures forall t :: 0 <= t < |l| ==> l[t] >= 0.0
  {
    var losses := Losses(closes);
    EmaNonNegative(losses, Alpha(period));
    Ema(losses, Alpha(period))
  }

  /** The RSI column: undefined exactly where the average loss is zero,
      otherwise in [0, 100). */
  function RsiSeries(closes: seq<real>, period: int): (r: seq<Option<real>>)
    requires period >= 1
    ensures |r| == |closes|
    ensures forall t :: 0 <= t < |r| ==> (r[t].None? <==> AverageLosses(closes, period)[t] == 0.0)
    ensures forall t :: 0 <= t < |r| && r[t].Some? ==> 0.0 <= r[t].value < 100.0
  {
    var g, l := AverageGains(closes, period), AverageLosses(closes, period);
    seq(|closes|, t requires 0 <= t < |closes| => RsiOf(g[t], l[t]))
  }

  /** A series without a single down move has no defined RSI at all
      (not 100): its average loss stays zero. */
  lemma NoDownMovesUndefined(closes: seq<real>, period: int)
    requires period >= 1
    requires forall t :: 0 < t < |closes| ==> closes[t - 1] <= closes[t]
    ensures forall t :: 0 <= t < |closes| ==> RsiSeries(closes, period)[t].None?
  {
    var losses := Losses(closes);
    assert forall t :: 0 <= t < |losses| ==> 0.0 <= losses[t] <= 0.0;
    EmaBounds(losses, Alpha(period), 0.0, 0.0);
  }

  /** A strictly falling series has RSI 0 from its second row on. */
  lemma StrictlyFallingIsZero(closes: seq<real>, period: int)
    requires period >= 1
    requires forall t :: 0 < t < |closes| ==> closes[t] < closes[t - 1]
    ensures |closes| > 0 ==> RsiSeries(closes, period)[0].None?
    ensures forall t :: 0 < t < |closes| ==> RsiSeries(closes, period)[t] == Some(0.0)
  {
    if |closes| > 0 {
      var gains, losses := Gains(closes), Losses(closes);
      assert forall t :: 0 <= t < |gains| ==> 0.0 <= gains[t] <= 0.0;
      EmaBounds(gains, Alpha(period), 0.0, 0.0);
      EmaPositive(losses, Alpha(period));
      EmaRecurrence(losses, Alpha(period), 0);
    }
  }

  /** The signal band of the latest reading. */
  function Classify(latest: Option<real>): Signal {
    if latest.Some? && latest.value > 70.0 then Overbought
    else if latest.Some? && latest.value < 30.0 then Oversold
    else Neutral
  }

  /** OVERBOUGHT exactly above 70, OVERSOLD exactly below 30; NEUTRAL covers
      30 and 70 themselves and an undefined reading. */
  lemma SignalBands(latest: Option<real>)
    ensures Classify(latest) == Overbought <==> latest.Some? && latest.value > 70.0
    ensures Classify(latest) == Oversold <==> latest.Some? && latest.value < 30.0
    ensures Classify(latest) == Neutral <==> latest.None? || 30.0 <= latest.value <= 70.0
  {
  }

  /** The reported text names the band the latest reading falls in, and the
      three texts are told apart. */
  lemma SignalTextBands(latest: Option<real>)
    ensures SignalText(Classify(latest)) == OverboughtText <==> latest.Some? && latest.value > 70.0
    ensures SignalText(Classify(latest)) == OversoldText <==> latest.Some? && latest.value < 30.0
    ensures SignalText(Classify(latest)) == NeutralText <==> latest.None? || 30.0 <= latest.value <= 70.0
  {
    SignalBands(latest);
    SignalTextsDistinct();
  }

  /** The smallest and largest defined RSI lie in [0, 100). */
  lemma RsiSeriesBounded(closes: seq<real>, period: int)
    requires period >= 1
    ensures AggregateOf(RsiSeries(closes, period)).max.Some? ==>
      0.0 <= AggregateOf(RsiSeries(closes, period)).min.value <= AggregateOf(RsiSeries(closes, period)).max.value < 100.0
  {
    AggregateWithin(RsiSeries(closes, period), 0.0, 100.0);
  }

  datatype RsiSummary = RsiSummary(
    ticker: string,
    reportedDate: Date,
    latestRsi: Option<real>,
    signal: Signal,
    maxRsi: Option<real>,
    minRsi: Option<real>,
    averageRsi: Option<real>)

  function NoDataMessage(ticker: string): string {
    "No data available for ticker '" + ticker + "'"
  }

  /** What pandas raises for a smoothing span below one. */
  const SpanMessage := "span must satisfy: span >= 1"

  /** `get_rsi_summary` once the price history has been fetched. */
  function RsiSummaryOf(ticker: string, history: seq<PriceBar>, period: int): (r: Result<RsiSummary>)
    ensures history == [] ==> r == Err(NoDataMessage(ticker))
    ensures history != [] && period < 1 ==> r == Err(SpanMessage)
    ensures r.Ok? <==> history != [] && period >= 1
    ensures r.Ok? ==> r.value.reportedDate == history[|history| - 1].date
    ensures r.Ok? ==> r.value.latestRsi == RsiSeries(Closes(history), period)[|history| - 1]
    ensures r.Ok? ==> r.value.signal == Classify(r.value.latestRsi)
    ensures r.Ok? ==> Aggregate(r.value.averageRsi, r.value.maxRsi, r.value.minRsi)
                      == AggregateOf(RsiSeries(Closes(history), period))
    ensures r.Ok? && r.value.maxRsi.Some? ==> 0.0 <= r.value.minRsi.value <= r.value.maxRsi.value < 100.0
  {
    if history == [] then Err(NoDataMessage(ticker))
    else if period < 1 then Err(SpanMessage)
    else
      var rsi := RsiSeries(Closes(history), period);
      var latest := rsi[|rsi| - 1];
      var agg := AggregateOf(rsi);
      RsiSeriesBounded(Closes(history), period);
      Ok(RsiSummary(ticker, history[|history| - 1].date, latest, Classify(latest),
                    agg.max, agg.min, agg.mean))
  }

  /** With the default period every non-empty history has a summary. */
  lemma DefaultPeriodSummary(ticker: string, history: seq<PriceBar>)
    ensures RsiSummaryOf(ticker, history, DefaultPeriod).Ok? <==> history != []
    ensures history != [] ==> RsiSummaryOf(ticker, history, DefaultPeriod).value.latestRsi
                              == RsiSeries(Closes(history), DefaultPeriod)[|history| - 1]
  {
  }

  /** A rising or flat price history, such as 1, 2, ..., 15, has no latest
      RSI, no statistics, and a NEUTRAL signal. */
  lemma RisingHistoryIsNeutral(ticker: string, history: seq<PriceBar>, period: int)
    requires history != [] && period >= 1
    requires forall t :: 0 < t < |history| ==> history[t - 1].close <= history[t].close
    ensures RsiSummaryOf(ticker, history, period).Ok?
    ensures RsiSummaryOf(ticker, history, period).value.latestRsi.None?
    ensures RsiSummaryOf(ticker, history, period).value.maxRsi.None?
    ensures RsiSummaryOf(ticker, history, period).value.signal == Neutral
  {
    NoDownMovesUndefined(Closes(history), period);
  }
}
