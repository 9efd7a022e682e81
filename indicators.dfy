/** The three price-action indicators of the bot: break of structure,
    liquidity sweep and average true range. */
module Indicators {
  import opened Types
  import opened Candles

  const STRUCTURE_LOOKBACK: nat := 20
  const LIQUIDITY_LOOKBACK: nat := 10
  /** The default `length` of `atr`: 13 true ranges, for candles 1 to 13. */
  const ATR_LENGTH: nat := 14

  /** "BOS_BUY" and "BOS_SELL". */
  datatype Bos = BosBuy | BosSell

  /** "SWEEP_HIGH_SELL" and "SWEEP_LOW_BUY". */
  datatype Sweep = SweepHighSell | SweepLowBuy

  // ---------------------------------------------------------------- BOS

  /** bos_choch: the last close against the highest high and the lowest low of the
      last STRUCTURE_LOOKBACK candles, a window that holds the last candle too.
      BUY is tried first; both comparisons are strict. */
  function BosChoch(kl: seq<Candle>): (r: Res<Option<Bos>>)
    ensures r.Raised? <==> |kl| == 0
    ensures |kl| == 0 ==> r.exc == IndexError
    ensures |kl| > 0 ==>
      var w, c := Tail(kl, STRUCTURE_LOOKBACK), Last(kl).close;
      && (r.value == Some(BosBuy) <==> AboveAllHighs(w, c))
      && (r.value == Some(BosSell) <==> !AboveAllHighs(w, c) && BelowAllLows(w, c))
  {
    if |kl| == 0 then Raised(IndexError)
    else
      var w := Tail(kl, STRUCTURE_LOOKBACK);
      var close := Last(kl).close;
      if close > MaxHigh(w) then Ok(Some(BosBuy))
      else if close < MinLow(w) then Ok(Some(BosSell))
      else Ok(None)
  }

  /** A close equal to the window's extreme is not a break. */
  lemma BosIsStrict(kl: seq<Candle>)
    requires |kl| > 0
    ensures Last(kl).close == MaxHigh(Tail(kl, STRUCTURE_LOOKBACK)) ==> BosChoch(kl) != Ok(Some(BosBuy))
    ensures Last(kl).close == MinLow(Tail(kl, STRUCTURE_LOOKBACK)) ==> BosChoch(kl) != Ok(Some(BosSell))
  {
  }

  /** Because the window holds the last candle itself, a last candle whose close
      lies between its own low and high can never break structure either way. */
  lemma BosSilentOnOrdinaryLastCandle(kl: seq<Candle>)
    requires |kl| > 0
    requires Last(kl).low <= Last(kl).close <= Last(kl).high
    ensures BosChoch(kl) == Ok(None)
  {
  }

  // ---------------------------------------------------------------- sweep

  /** The candles of the last LIQUIDITY_LOOKBACK before the final one. */
  function Prior(kl: seq<Candle>): (p: seq<Candle>)
    requires |kl| > 0
    ensures |p| == |Tail(kl, LIQUIDITY_LOOKBACK)| - 1
    ensures forall i :: 0 <= i < |p| ==> p[i] == kl[|kl| - 1 - |p| + i]
  {
    var w := Tail(kl, LIQUIDITY_LOOKBACK);
    w[..|w| - 1]
  }

  /** liquidity_sweep: the final candle's wick beyond the extreme of the earlier
      candles of the window, with its close back inside. SELL is tried first; all
      comparisons are strict. `max` of an empty list raises for a single candle. */
  function LiquiditySweep(kl: seq<Candle>): (r: Res<Option<Sweep>>)
    ensures |kl| == 0 ==> r == Raised(IndexError)
    ensures |kl| == 1 ==> r == Raised(ValueError)
    ensures |kl| >= 2 ==> r.Ok?
    ensures |kl| >= 2 ==>
      var p, last := Prior(kl), Last(kl);
      && (r.value == Some(SweepHighSell) <==>
            AboveAllHighs(p, last.high) && UnderSomeHigh(p, last.close))
      && (r.value == Some(SweepLowBuy) <==>
            !(AboveAllHighs(p, last.high) && UnderSomeHigh(p, last.close))
            && BelowAllLows(p, last.low) && OverSomeLow(p, last.close))
  {
    if |kl| == 0 then Raised(IndexError)
    else if |kl| == 1 then Raised(ValueError)
    else
      var p := Prior(kl);
      var last := Last(kl);
      if last.high > MaxHigh(p) && last.close < MaxHigh(p) then Ok(Some(SweepHighSell))
      else if last.low < MinLow(p) && last.close > MinLow(p) then Ok(Some(SweepLowBuy))
      else Ok(None)
  }

  // ---------------------------------------------------------------- ATR

  /** max(h - l, |h - pc|, |l - pc|). */
  function TrueRange(c: Candle, prevClose: real): (r: real)
    ensures r >= c.high - c.low && r >= Abs(c.high - prevClose) && r >= Abs(c.low - prevClose)
    ensures r == c.high - c.low || r == Abs(c.high - prevClose) || r == Abs(c.low - prevClose)
    ensures r >= 0.0
  {
    var a, b, d := c.high - c.low, Abs(c.high - prevClose), Abs(c.low - prevClose);
    if a >= b && a >= d then a else if b >= d then b else d
  }

  /** The sum of the true ranges of kl[1], ..., kl[n - 1], each against the close before it. */
  function TrueRangeSum(kl: seq<Candle>, n: nat): (s: real)
    requires 1 <= n <= |kl|
    ensures s >= 0.0
    decreases n
  {
    if n == 1 then 0.0
    else TrueRangeSum(kl, n - 1) + TrueRange(kl[n - 1], kl[n - 2].close)
  }

  /** The value `atr` returns on a list of at least ATR_LENGTH candles. */
  function AtrOf(kl: seq<Candle>): (a: real)
    requires |kl| >= ATR_LENGTH
    ensures a >= 0.0
  {
    // `len(tr)` is always ATR_LENGTH - 1 == 13
    TrueRangeSum(kl, ATR_LENGTH) / 13.0
  }

  /** The true-range sum up to n reads only the first n candles. */
  lemma {:induction false} TrueRangeSumPrefix(kl: seq<Candle>, kl': seq<Candle>, n: nat)
    requires 1 <= n <= |kl| && n <= |kl'|
    requires kl[..n] == kl'[..n]
    ensures TrueRangeSum(kl, n) == TrueRangeSum(kl', n)
    decreases n
  {
    if n > 1 {
      assert kl[..n - 1] == kl[..n][..n - 1] == kl'[..n][..n - 1] == kl'[..n - 1];
      assert kl[n - 1] == kl[..n][n - 1] && kl'[n - 1] == kl'[..n][n - 1];
      assert kl[n - 2] == kl[..n][n - 2] && kl'[n - 2] == kl'[..n][n - 2];
      TrueRangeSumPrefix(kl, kl', n - 1);
    }
  }

  /** ATR depends on kl[0..13] only: candles after those never matter. */
  lemma AtrReadsFirstCandlesOnly(kl: seq<Candle>, kl': seq<Candle>)
    requires |kl| >= ATR_LENGTH && |kl'| >= ATR_LENGTH
    requires kl[..ATR_LENGTH] == kl'[..ATR_LENGTH]
    ensures AtrOf(kl) == AtrOf(kl')
  {
    TrueRangeSumPrefix(kl, kl', ATR_LENGTH);
  }

  /** Python's `sum`, adding from the left. */
  function Sum(xs: seq<real>): real
  {
    if |xs| == 0 then 0.0 else Sum(xs[..|xs| - 1]) + xs[|xs| - 1]
  }

  /** atr(kl): collects the true ranges of candles 1..13 in a list and returns their
      mean. The loop reads kl[i] before anything else, so a list shorter than
      ATR_LENGTH raises IndexError. */
  method Atr(kl: seq<Candle>) returns (r: Res<real>)
    ensures r.Raised? <==> |kl| < ATR_LENGTH
    ensures r.Raised? ==> r.exc == IndexError
    ensures r.Ok? ==> r.value == AtrOf(kl)
  {
    var tr: seq<real> := [];
    for i := 1 to ATR_LENGTH
      invariant |tr| == i - 1
      invariant i == 1 || i <= |kl|
      invariant i <= |kl| ==> Sum(tr) == TrueRangeSum(kl, i)
    {
      if i >= |kl| {
        return Raised(IndexError);
      }
      var x := TrueRange(kl[i], kl[i - 1].close);
      assert (tr + [x])[..|tr|] == tr;
      tr := tr + [x];
    }
    assert |tr| == 13;  // len(tr)
    r := Ok(Sum(tr) / 13.0);
  }
}
