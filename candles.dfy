/** Candles and the list helpers the detectors use. */
module Candles {

  /** One kline row, reduced to what the core reads: the high, low and close
      (indices 2, 3 and 4 of a row). No relation between the three is assumed. */
  datatype Candle = Candle(high: real, low: real, close: real)

  function Last(kl: seq<Candle>): Candle
    requires |kl| > 0
  {
    kl[|kl| - 1]
  }

  /** Python's `s[-k:]`: the last k elements, or all of s when it has fewer. */
  function Tail<T>(s: seq<T>, k: nat): (r: seq<T>)
    requires k > 0
    ensures |r| == if |s| < k then |s| else k
    ensures r == s[|s| - |r|..]
  {
    if |s| <= k then s else s[|s| - k..]
  }

  /** Python's `max(c.high for c in cs)`. */
  function MaxHigh(cs: seq<Candle>): (m: real)
    requires |cs| > 0
    ensures forall i :: 0 <= i < |cs| ==> cs[i].high <= m
    ensures exists i :: 0 <= i < |cs| && cs[i].high == m
  {
    if |cs| == 1 then cs[0].high
    else
      var rest := MaxHigh(cs[1..]);
      if cs[0].high >= rest then cs[0].high else rest
  }

  /** Python's `min(c.low for c in cs)`. */
  function MinLow(cs: seq<Candle>): (m: real)
    requires |cs| > 0
    ensures forall i :: 0 <= i < |cs| ==> m <= cs[i].low
    ensures exists i :: 0 <= i < |cs| && cs[i].low == m
  {
    if |cs| == 1 then cs[0].low
    else
      var rest := MinLow(cs[1..]);
      if cs[0].low <= rest then cs[0].low else rest
  }

  /** Every high in w lies strictly below x. */
  ghost predicate AboveAllHighs(w: seq<Candle>, x: real)
  {
    forall i :: 0 <= i < |w| ==> w[i].high < x
  }

  /** Every low in w lies strictly above x. */
  ghost predicate BelowAllLows(w: seq<Candle>, x: real)
  {
    forall i :: 0 <= i < |w| ==> x < w[i].low
  }

  /** Some high in w lies strictly above x. */
  ghost predicate UnderSomeHigh(w: seq<Candle>, x: real)
  {
    exists i :: 0 <= i < |w| && x < w[i].high
  }

  /** Some low in w lies strictly below x. */
  ghost predicate OverSomeLow(w: seq<Candle>, x: real)
  {
    exists i :: 0 <= i < |w| && w[i].low < x
  }
}
