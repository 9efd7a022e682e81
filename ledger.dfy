/** The trade records and the pure rules by which the bot opens, manages and
    closes them: risk levels, the side-selection rule of the scan, the
    take-profit ladder and the per-symbol win/loss counters. */
module Ledger {
  import opened Types
  import opened Candles
  import opened Indicators

  const ATR_MULTIPLIER: real := 1.5
  const MAX_TRADES: nat := 3
  const MIN_HOLD_SECONDS: real := 60.0

  /** A trade record of `trades.json`. `side` is optional because a record loaded
      from disk may lack it; `hit` lists the take-profit labels already reached. */
  datatype Trade = Trade(side: Option<Side>, entry: real, sl: real,
                         tp1: real, tp2: real, tp3: real, openedAt: real, hit: seq<string>)

  /** A per-symbol counter entry of `stats.json`. */
  datatype Stat = Stat(wins: int, losses: int)

  // ---------------------------------------------------------------- opening

  /** The record open_trade writes: d = atr * ATR_MULTIPLIER, the stop one d
      against the side, the three targets one, two and three d in its favour.
      Any side other than "BUY" is laid out as a sell. */
  function NewTrade(side: Side, price: real, atr: real, now: real): (t: Trade)
    ensures t.side == Some(side) && t.entry == price && t.openedAt == now && t.hit == []
    ensures side == BUY ==>
      && t.entry - t.sl == atr * ATR_MULTIPLIER && t.tp1 - t.entry == atr * ATR_MULTIPLIER
      && t.tp2 - t.tp1 == atr * ATR_MULTIPLIER && t.tp3 - t.tp2 == atr * ATR_MULTIPLIER
    ensures side != BUY ==>
      && t.sl - t.entry == atr * ATR_MULTIPLIER && t.entry - t.tp1 == atr * ATR_MULTIPLIER
      && t.tp1 - t.tp2 == atr * ATR_MULTIPLIER && t.tp2 - t.tp3 == atr * ATR_MULTIPLIER
    ensures atr > 0.0 && side == BUY ==> t.sl < t.entry < t.tp1 < t.tp2 < t.tp3
    ensures atr > 0.0 && side != BUY ==> t.tp3 < t.tp2 < t.tp1 < t.entry < t.sl
  {
    var d := atr * ATR_MULTIPLIER;
    var buy := side == BUY;
    Trade(Some(side), price,
          if buy then price - d else price + d,
          if buy then price + d else price - d,
          if buy then price + 2.0 * d else price - 2.0 * d,
          if buy then price + 3.0 * d else price - 3.0 * d,
          now, [])
  }

  /** The side the scan opens on, from the two detector results (the
      `if not bos and not sweep` skip and the `side = ...` expression in `run`):
      nothing without a signal, "BUY" when either detector votes buy, else "SELL".
      A sweep that votes buy therefore overrides a BOS that votes sell. */
  function Decide(bos: Option<Bos>, sweep: Option<Sweep>): (side: Option<Side>)
    ensures side.None? <==> bos.None? && sweep.None?
    ensures side == Some(BUY) <==> bos == Some(BosBuy) || sweep == Some(SweepLowBuy)
    ensures side == Some(SELL) <==>
      (bos == Some(BosSell) || sweep == Some(SweepHighSell))
      && bos != Some(BosBuy) && sweep != Some(SweepLowBuy)
  {
    if bos.None? && sweep.None? then None
    else if bos == Some(BosBuy) || sweep == Some(SweepLowBuy) then Some(BUY)
    else
      assert bos.Some? ==> bos.value == BosSell;
      assert sweep.Some? ==> sweep.value == SweepHighSell;
      Some(SELL)
  }

  /** What the scan step makes of a fetched candle list. */
  datatype Plan = Quiet | Enter(side: Side, price: real, atr: real)

  /** The scan step of `run` for one symbol, from its candle list, in the source's
      order: BOS, then the sweep, then the side, then ATR, as the scan step of `run` does. */
  function Evaluate(kl: seq<Candle>): (r: Res<Plan>)
    ensures |kl| == 0 ==> r == Raised(IndexError)
    ensures |kl| == 1 ==> r == Raised(ValueError)
    ensures r.Raised? ==> |kl| < ATR_LENGTH
    ensures r == Ok(Quiet) <==> |kl| >= 2 && BosChoch(kl) == Ok(None) && LiquiditySweep(kl) == Ok(None)
    ensures 2 <= |kl| < ATR_LENGTH ==> (r.Raised? <==> r != Ok(Quiet))
    ensures r.Ok? && r.value.Enter? ==>
      && |kl| >= ATR_LENGTH
      && r.value.price == Last(kl).close
      && r.value.atr == AtrOf(kl) && r.value.atr >= 0.0
      && Some(r.value.side) == Decide(BosChoch(kl).value, LiquiditySweep(kl).value)
  {
    match BosChoch(kl)
    case Raised(e) => Raised(e)
    case Ok(bos) =>
      match LiquiditySweep(kl)
      case Raised(e) => Raised(e)
      case Ok(sweep) =>
        match Decide(bos, sweep)
        case None => Ok(Quiet)
        case Some(side) =>
          if |kl| < ATR_LENGTH then Raised(IndexError)
          else Ok(Enter(side, Last(kl).close, AtrOf(kl)))
  }

  // ---------------------------------------------------------------- managing

  /** hit(tp) in manage_trade: a "BUY" trade reaches a level at or above it, every
      other side at or below it. */
  predicate Reached(t: Trade, level: real, price: real)
  {
    if t.side == Some(BUY) then price >= level else price <= level
  }

  /** The stop-loss test; non-strict, and only for the two sides the bot writes. */
  predicate StopBreached(t: Trade, price: real)
  {
    (t.side == Some(BUY) && price <= t.sl) || (t.side == Some(SELL) && price >= t.sl)
  }

  /** The minimum hold time has passed. */
  predicate Held(t: Trade, now: real)
  {
    now - t.openedAt >= MIN_HOLD_SECONDS
  }

  /** Everything of a record but its hit list. */
  predicate SameLevels(t: Trade, u: Trade)
  {
    t.side == u.side && t.entry == u.entry && t.sl == u.sl && t.tp1 == u.tp1
    && t.tp2 == u.tp2 && t.tp3 == u.tp3 && t.openedAt == u.openedAt
  }

  /** b is a followed by new labels only: "tp1", "tp2" or both in that order, none
      of them already in a. */
  ghost predicate Grows(a: seq<string>, b: seq<string>)
  {
    |a| <= |b| && b[..|a|] == a &&
    var added := b[|a|..];
    && (added == [] || added == ["tp1"] || added == ["tp2"] || added == ["tp1", "tp2"])
    && forall k :: 0 <= k < |added| ==> added[k] !in a
  }

  /** What one manage_trade call decides for a trade: keep it (possibly with a
      longer hit list) or close it, as a win or as a loss. */
  datatype Verdict = Keep(trade: Trade) | Close(win: bool)

  /** The take-profit ladder of manage_trade, once the hold time has passed and
      the stop held: tp1, then tp2, each marked at most once, then tp3, which
      closes as a win even when tp1 and tp2 were marked in this same call. */
  function Ladder(t: Trade, price: real): (v: Verdict)
    ensures v == Close(true) <==> "tp3" !in t.hit && Reached(t, t.tp3, price)
    ensures v.Keep? ==> SameLevels(t, v.trade) && Grows(t.hit, v.trade.hit)
    ensures v.Keep? ==> ("tp1" in v.trade.hit <==> "tp1" in t.hit || Reached(t, t.tp1, price))
    ensures v.Keep? ==> ("tp2" in v.trade.hit <==> "tp2" in t.hit || Reached(t, t.tp2, price))
  {
    var h1 := if "tp1" !in t.hit && Reached(t, t.tp1, price) then t.hit + ["tp1"] else t.hit;
    var h2 := if "tp2" !in h1 && Reached(t, t.tp2, price) then h1 + ["tp2"] else h1;
    if "tp3" !in h2 && Reached(t, t.tp3, price) then Close(true)
    else Keep(t.(hit := h2))
  }

  /** manage_trade on one record at `price` and time `now`. Within the hold time
      nothing happens; then the stop is tested before any target; then the ladder. */
  function Manage(t: Trade, price: real, now: real): (v: Verdict)
    requires t.side.Some?
    ensures !Held(t, now) ==> v == Keep(t)
    ensures v == Close(false) <==> Held(t, now) && StopBreached(t, price)
    ensures v == Close(true) <==>
      Held(t, now) && !StopBreached(t, price) && "tp3" !in t.hit && Reached(t, t.tp3, price)
    ensures v.Keep? ==> SameLevels(t, v.trade) && Grows(t.hit, v.trade.hit)
    ensures v.Keep? ==>
      ("tp1" in v.trade.hit <==> "tp1" in t.hit || (Held(t, now) && Reached(t, t.tp1, price)))
    ensures v.Keep? ==>
      ("tp2" in v.trade.hit <==> "tp2" in t.hit || (Held(t, now) && Reached(t, t.tp2, price)))
  {
    if !Held(t, now) then Keep(t)
    else if StopBreached(t, price) then Close(false)
    else Ladder(t, price)
  }

  /** No label occurs twice. */
  ghost predicate Distinct(s: seq<string>)
  {
    forall i, j :: 0 <= i < j < |s| ==> s[i] != s[j]
  }

  lemma GrowsKeepsDistinct(a: seq<string>, b: seq<string>)
    requires Distinct(a) && Grows(a, b)
    ensures Distinct(b)
  {
  }

  /** The ladder is in order: on a record whose tp2 lies beyond tp1 in the trade's
      favour, "tp2" is never marked without "tp1". */
  ghost predicate LadderInOrder(t: Trade)
  {
    && (if t.side == Some(BUY) then t.tp1 <= t.tp2 else t.tp2 <= t.tp1)
    && ("tp2" in t.hit ==> "tp1" in t.hit)
  }

  lemma OpenedLadderInOrder(side: Side, price: real, atr: real, now: real)
    requires atr >= 0.0
    ensures LadderInOrder(NewTrade(side, price, atr, now)) && Distinct(NewTrade(side, price, atr, now).hit)
  {
  }

  lemma ManageKeepsLadderInOrder(t: Trade, price: real, now: real)
    requires t.side.Some? && LadderInOrder(t)
    ensures Manage(t, price, now).Keep? ==> LadderInOrder(Manage(t, price, now).trade)
  {
  }

  /** One management pass of the bot: the price it fetched and the clock. */
  datatype Tick = Tick(price: real, now: real)

  /** A trade managed on successive passes until it closes. */
  function ManageAll(t: Trade, ticks: seq<Tick>): Verdict
    requires t.side.Some?
    decreases |ticks|
  {
    if ticks == [] then Keep(t)
    else
      match Manage(t, ticks[0].price, ticks[0].now)
      case Close(win) => Close(win)
      case Keep(u) => ManageAll(u, ticks[1..])
  }

  /** However many passes a trade survives, its side, entry, stop, targets and
      opening time stay as they were, its hit list only grows, no label is marked
      twice and tp2 is never marked before tp1 on an ordered ladder. */
  lemma {:induction false} ManageAllKeepsRecord(t: Trade, ticks: seq<Tick>)
    requires t.side.Some? && Distinct(t.hit)
    ensures ManageAll(t, ticks).Keep? ==>
      var u := ManageAll(t, ticks).trade;
      && SameLevels(t, u) && t.hit <= u.hit && Distinct(u.hit)
      && (LadderInOrder(t) ==> LadderInOrder(u))
    decreases |ticks|
  {
    if ticks != [] {
      var v := Manage(t, ticks[0].price, ticks[0].now);
      if v.Keep? {
        GrowsKeepsDistinct(t.hit, v.trade.hit);
        if LadderInOrder(t) {
          ManageKeepsLadderInOrder(t, ticks[0].price, ticks[0].now);
        }
        ManageAllKeepsRecord(v.trade, ticks[1..]);
      }
    }
  }

  // ---------------------------------------------------------------- stats

  /** The counters of a symbol, zero when it has no entry yet (setdefault). */
  function StatOf(stats: map<Symbol, Stat>, symbol: Symbol): Stat
  {
    if symbol in stats then stats[symbol] else Stat(0, 0)
  }

  /** The counters after one more win or loss. */
  function Bump(s: Stat, win: bool): (r: Stat)
    ensures r.wins + r.losses == s.wins + s.losses + 1
    ensures r.wins == s.wins + (if win then 1 else 0)
    ensures r.losses == s.losses + (if win then 0 else 1)
  {
    if win then s.(wins := s.wins + 1) else s.(losses := s.losses + 1)
  }

  /** The stats update of close_trade: only `symbol`'s entry changes, created at
      zero when missing, and exactly one of its counters goes up by one. */
  function Tally(stats: map<Symbol, Stat>, symbol: Symbol, win: bool): (r: map<Symbol, Stat>)
    ensures r.Keys == stats.Keys + {symbol}
    ensures forall s :: s in stats && s != symbol ==> r[s] == stats[s]
    ensures r[symbol].wins == StatOf(stats, symbol).wins + (if win then 1 else 0)
    ensures r[symbol].losses == StatOf(stats, symbol).losses + (if win then 0 else 1)
  {
    stats[symbol := Bump(StatOf(stats, symbol), win)]
  }

  // ---------------------------------------------------------------- cleaning

  /** clean_trades: the records that have a side, each unchanged. */
  function WithSide(trades: map<Symbol, Trade>): (r: map<Symbol, Trade>)
    ensures forall s :: s in r <==> s in trades && trades[s].side.Some?
    ensures forall s :: s in r ==> r[s] == trades[s] && r[s].side.Some?
  {
    map s | s in trades && trades[s].side.Some? :: trades[s]
  }

  lemma WithSideIdempotent(trades: map<Symbol, Trade>)
    ensures WithSide(WithSide(trades)) == WithSide(trades)
  {
  }

  // ---------------------------------------------------------------- ledger steps

  /** The ledger (tr, st) is (t0, s0) with verdict v applied to `symbol`. */
  ghost predicate Applied(tr: map<Symbol, Trade>, st: map<Symbol, Stat>,
                          t0: map<Symbol, Trade>, s0: map<Symbol, Stat>, symbol: Symbol, v: Verdict)
  {
    match v
    case Keep(t) => tr == t0[symbol := t] && st == s0
    case Close(win) => tr == t0 - {symbol} && st == Tally(s0, symbol, win)
  }

  /** At symbol s the ledger (tr, st) holds what (t0, s0) held. */
  ghost predicate UntouchedAt(tr: map<Symbol, Trade>, st: map<Symbol, Stat>,
                              t0: map<Symbol, Trade>, s0: map<Symbol, Stat>, s: Symbol)
  {
    (s in tr <==> s in t0) && (s in t0 ==> tr[s] == t0[s]) && StatOf(st, s) == StatOf(s0, s)
  }

  /** At symbol s, a record of t0, the ledger (tr, st) holds the outcome of managing
      that record once at `price`. */
  ghost predicate ManagedAt(tr: map<Symbol, Trade>, st: map<Symbol, Stat>,
                            t0: map<Symbol, Trade>, s0: map<Symbol, Stat>, s: Symbol, price: real, now: real)
  {
    s in t0 && t0[s].side.Some? &&
    match Manage(t0[s], price, now)
    case Keep(t) => s in tr && tr[s] == t && StatOf(st, s) == StatOf(s0, s)
    case Close(win) => s !in tr && StatOf(st, s) == Bump(StatOf(s0, s), win)
  }

  /** Only records of t0 remain, and counter entries appear only for the symbols
      whose record was closed. */
  ghost predicate KeysKept(tr: map<Symbol, Trade>, st: map<Symbol, Stat>,
                           t0: map<Symbol, Trade>, s0: map<Symbol, Stat>)
  {
    tr.Keys <= t0.Keys && st.Keys == s0.Keys + (t0.Keys - tr.Keys)
  }

  /** Managing `symbol` from (t1, s1) to (t2, s2) finishes it and leaves every other
      symbol as it was. */
  lemma ManageStep(t1: map<Symbol, Trade>, s1: map<Symbol, Stat>, t2: map<Symbol, Trade>, s2: map<Symbol, Stat>,
                   t0: map<Symbol, Trade>, s0: map<Symbol, Stat>, symbol: Symbol, price: real, now: real)
    requires symbol in t0 && t0[symbol].side.Some? && UntouchedAt(t1, s1, t0, s0, symbol)
    requires Applied(t2, s2, t1, s1, symbol, Manage(t1[symbol], price, now))
    ensures ManagedAt(t2, s2, t0, s0, symbol, price, now)
    ensures KeysKept(t1, s1, t0, s0) ==> KeysKept(t2, s2, t0, s0)
    ensures forall s :: s != symbol ==> (UntouchedAt(t2, s2, t0, s0, s) <==> UntouchedAt(t1, s1, t0, s0, s))
    ensures forall s, p :: s != symbol ==> (ManagedAt(t2, s2, t0, s0, s, p, now) <==> ManagedAt(t1, s1, t0, s0, s, p, now))
  {
  }

  /** What a management pass promises, read per trade: a record survives only with
      its levels intact and its hit list extended, and a symbol's counters move only
      when its record was closed, by exactly one win or one loss. */
  lemma ManagedConsequences(tr: map<Symbol, Trade>, st: map<Symbol, Stat>,
                            t0: map<Symbol, Trade>, s0: map<Symbol, Stat>, prices: map<Symbol, real>, now: real)
    requires forall s :: s !in t0 ==> UntouchedAt(tr, st, t0, s0, s)
    requires forall s :: s in t0 ==>
      UntouchedAt(tr, st, t0, s0, s) || (s in prices && ManagedAt(tr, st, t0, s0, s, prices[s], now))
    ensures tr.Keys <= t0.Keys
    ensures forall s :: s in tr ==> SameLevels(t0[s], tr[s]) && t0[s].hit <= tr[s].hit
    ensures forall s :: s in tr ==> StatOf(st, s) == StatOf(s0, s)
    ensures forall s :: s in t0 && s !in tr ==>
      StatOf(st, s).wins + StatOf(st, s).losses == StatOf(s0, s).wins + StatOf(s0, s).losses + 1
  {
  }
}
