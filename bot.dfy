/** SmartMoneyBot: the trade ledger (`trades`, `stats`) and the scan-then-manage
    pass of `run`, with every HTTP result, file load and clock reading passed in. */
module SmartMoney {
  import opened Types
  import opened Candles
  import opened Indicators
  import opened Ledger

  /** How the scan step ended for one symbol. */
  datatype ScanResult = Skipped | NoSignal | Opened | AtCapacity | Failed(exc: Exc)

  class Bot {
    var trades: map<Symbol, Trade>
    var stats: map<Symbol, Stat>
    /** The coin universe fetch_top_coins returned at start-up. */
    var symbols: seq<Symbol>

    /** Every record has a side: clean_trades runs at start-up and the bot itself
        always writes one. */
    ghost predicate Valid()
      reads this
    {
      forall s :: s in trades ==> trades[s].side.Some?
    }

    /** __init__, with the two loaded JSON files and the fetched universe as
        parameters. */
    constructor (loadedTrades: map<Symbol, Trade>, loadedStats: map<Symbol, Stat>, universe: seq<Symbol>)
      ensures Valid()
      ensures trades == WithSide(loadedTrades) && stats == loadedStats && symbols == universe
    {
      trades := loadedTrades;
      stats := loadedStats;
      symbols := universe;
      new;
      CleanTrades();
    }

    /** clean_trades: deletes, key by key, every record without a side. */
    method CleanTrades()
      modifies this
      ensures Valid()
      ensures trades == WithSide(old(trades))
      ensures stats == old(stats) && symbols == old(symbols)
    {
      var keys := trades.Keys;
      while keys != {}
        invariant keys <= old(trades).Keys
        invariant forall s :: s in trades <==> s in old(trades) && (s in keys || old(trades)[s].side.Some?)
        invariant forall s :: s in trades ==> trades[s] == old(trades)[s]
        invariant stats == old(stats) && symbols == old(symbols)
        decreases keys
      {
        var s :| s in keys;
        if trades[s].side.None? {
          trades := trades - {s};
        }
        keys := keys - {s};
      }
      assert trades.Keys == WithSide(old(trades)).Keys;
    }

    /** open_trade: refused when MAX_TRADES records exist; otherwise writes the
        record for `symbol` and nothing else. */
    method OpenTrade(symbol: Symbol, side: Side, price: real, atr: real, now: real)
      requires Valid()
      modifies this
      ensures Valid()
      ensures |old(trades)| >= MAX_TRADES ==> trades == old(trades)
      ensures |old(trades)| < MAX_TRADES ==> trades == old(trades)[symbol := NewTrade(side, price, atr, now)]
      ensures |trades| <= Max(|old(trades)|, MAX_TRADES)
      ensures stats == old(stats) && symbols == old(symbols)
    {
      if |trades| >= MAX_TRADES {
        return;
      }
      trades := trades[symbol := NewTrade(side, price, atr, now)];
    }

    /** close_trade: counts the outcome for `symbol` and deletes its record. */
    method CloseTrade(symbol: Symbol, win: bool)
      requires Valid() && symbol in trades
      modifies this
      ensures Valid()
      ensures stats == Tally(old(stats), symbol, win)
      ensures trades == old(trades) - {symbol}
      ensures symbols == old(symbols)
    {
      stats := Tally(stats, symbol, win);
      trades := trades - {symbol};
    }

    /** manage_trade, with the fetched price and the clock as parameters. */
    method ManageTrade(symbol: Symbol, price: real, now: real)
      requires Valid()
      modifies this
      ensures Valid()
      ensures symbol !in old(trades) ==> trades == old(trades) && stats == old(stats)
      ensures symbol in old(trades) ==>
        Applied(trades, stats, old(trades), old(stats), symbol, Manage(old(trades)[symbol], price, now))
      ensures symbols == old(symbols)
    {
      if symbol !in trades {
        return;
      }
      var t := trades[symbol];
      ghost var t0, before := t, trades;
      var side := t.side.value;
      if now - t.openedAt < MIN_HOLD_SECONDS {
        assert Manage(t0, price, now) == Keep(t0) && before[symbol := t0] == before;
        return;
      }
      if (side == BUY && price <= t.sl) || (side == SELL && price >= t.sl) {
        assert Manage(t0, price, now) == Close(false);
        CloseTrade(symbol, false);
        return;
      }
      TakeProfits(symbol, price);
    }

    /** The three take-profit `if` blocks of manage_trade: `hit(tp)` of the source is Reached. */
    method TakeProfits(symbol: Symbol, price: real)
      requires Valid() && symbol in trades
      modifies this
      ensures Valid()
      ensures Applied(trades, stats, old(trades), old(stats), symbol, Ladder(old(trades)[symbol], price))
      ensures symbols == old(symbols)
    {
      var t := trades[symbol];
      ghost var t0, before := t, trades;
      if "tp1" !in t.hit && Reached(t, t.tp1, price) {
        t := t.(hit := t.hit + ["tp1"]);
      }
      if "tp2" !in t.hit && Reached(t, t.tp2, price) {
        t := t.(hit := t.hit + ["tp2"]);
      }
      // the appends above act on the stored record itself
      trades := trades[symbol := t];
      if "tp3" !in t.hit && Reached(t, t.tp3, price) {
        assert Ladder(t0, price) == Close(true);
        assert trades - {symbol} == before - {symbol};
        CloseTrade(symbol, true);
      } else {
        assert Ladder(t0, price) == Keep(t);
      }
    }

    /** The scan step of `run` for one symbol (the body of its
        `for symbol in self.symbols` loop). `fetched` is what klines(symbol)
        returned, None when the request failed. */
    method ScanSymbol(symbol: Symbol, fetched: Option<seq<Candle>>, now: real) returns (r: ScanResult)
      requires Valid()
      modifies this
      ensures Valid()
      ensures stats == old(stats) && symbols == old(symbols)
      ensures r == Skipped <==> symbol in old(trades)
      ensures symbol !in old(trades) && fetched.None? ==> r == Failed(FetchError)
      ensures symbol !in old(trades) && fetched.Some? ==>
        match Evaluate(fetched.value)
        case Raised(e) => r == Failed(e)
        case Ok(Quiet) => r == NoSignal
        case Ok(Enter(_, _, _)) => r == (if |old(trades)| < MAX_TRADES then Opened else AtCapacity)
      ensures r != Opened ==> trades == old(trades)
      ensures r == Opened ==>
        fetched.Some? && Evaluate(fetched.value).Ok? && Evaluate(fetched.value).value.Enter? &&
        var plan := Evaluate(fetched.value).value;
        trades == old(trades)[symbol := NewTrade(plan.side, plan.price, plan.atr, now)]
    {
      if symbol in trades {
        return Skipped;
      }
      if fetched.None? {
        return Failed(FetchError);
      }
      var kl := fetched.value;
      var bos := BosChoch(kl);
      if bos.Raised? {
        return Failed(bos.exc);
      }
      var sweep := LiquiditySweep(kl);
      if sweep.Raised? {
        return Failed(sweep.exc);
      }
      var side := Decide(bos.value, sweep.value);
      if side.None? {
        return NoSignal;
      }
      var price := Last(kl).close;
      var atr := Atr(kl);
      if atr.Raised? {
        return Failed(atr.exc);
      }
      r := if |trades| < MAX_TRADES then Opened else AtCapacity;
      OpenTrade(symbol, side.value, price, atr.value, now);
    }

    /** The scan loop of `run` over the universe (`for symbol in self.symbols`).
        `klines` holds the candle list fetched per symbol; a symbol missing from
        it is a failed request. The first exception ends the pass and is returned. */
    method Scan(klines: map<Symbol, seq<Candle>>, now: real) returns (failure: Option<Exc>)
      requires Valid()
      modifies this
      ensures Valid()
      ensures stats == old(stats) && symbols == old(symbols)
      ensures |trades| <= Max(|old(trades)|, MAX_TRADES)
      ensures forall s :: s in old(trades) ==> s in trades && trades[s] == old(trades)[s]
      ensures forall s :: s in trades && s !in old(trades) ==>
        s in symbols && trades[s].hit == [] && trades[s].openedAt == now
        && (trades[s].side == Some(BUY) || trades[s].side == Some(SELL))
    {
      failure := None;
      for i := 0 to |symbols|
        invariant Valid()
        invariant stats == old(stats) && symbols == old(symbols)
        invariant |trades| <= Max(|old(trades)|, MAX_TRADES)
        invariant forall s :: s in old(trades) ==> s in trades && trades[s] == old(trades)[s]
        invariant forall s :: s in trades && s !in old(trades) ==>
          s in symbols[..i] && trades[s].hit == [] && trades[s].openedAt == now
          && (trades[s].side == Some(BUY) || trades[s].side == Some(SELL))
      {
        var symbol := symbols[i];
        var fetched := if symbol in klines then Some(klines[symbol]) else None;
        var r := ScanSymbol(symbol, fetched, now);
        if r.Failed? {
          return Some(r.exc);
        }
      }
    }

    /** The management loop of `run` (`for symbol in list(self.trades.keys())`)
        over the records present when it starts. `prices` holds what price(symbol)
        returned; a symbol missing from it is a failed request, which ends the
        pass. Every record is either left as it was or managed exactly once;
        nothing else changes. */
    method ManagePass(prices: map<Symbol, real>, now: real) returns (failure: Option<Exc>)
      requires Valid()
      modifies this
      ensures Valid()
      ensures symbols == old(symbols)
      ensures trades.Keys <= old(trades).Keys
      ensures forall s :: s in trades ==> SameLevels(old(trades)[s], trades[s]) && old(trades)[s].hit <= trades[s].hit
      ensures forall s :: s !in old(trades) ==> UntouchedAt(trades, stats, old(trades), old(stats), s)
      ensures forall s :: s in old(trades) ==>
        UntouchedAt(trades, stats, old(trades), old(stats), s) || (s in prices && ManagedAt(trades, stats, old(trades), old(stats), s, prices[s], now))
      ensures failure.None? ==>
        forall s :: s in old(trades) ==> s in prices && ManagedAt(trades, stats, old(trades), old(stats), s, prices[s], now)
      ensures failure.Some? ==> failure == Some(FetchError)
      ensures failure.Some? <==> exists s :: s in old(trades) && s !in prices
      ensures stats.Keys == old(stats).Keys + (old(trades).Keys - trades.Keys)
    {
      var pending := trades.Keys;
      while pending != {}
        invariant symbols == old(symbols)
        invariant pending <= old(trades).Keys
        invariant forall s :: s !in old(trades) || s in pending ==> UntouchedAt(trades, stats, old(trades), old(stats), s)
        invariant forall s :: s in old(trades) && s !in pending ==>
          s in prices && ManagedAt(trades, stats, old(trades), old(stats), s, prices[s], now)
        invariant Valid()
        invariant KeysKept(trades, stats, old(trades), old(stats))
        decreases pending
      {
        var symbol :| symbol in pending;
        if symbol !in prices {
          assert symbol in old(trades) && symbol !in prices;
          ManagedConsequences(trades, stats, old(trades), old(stats), prices, now);
          return Some(FetchError);
        }
        ghost var t1, s1 := trades, stats;
        ManageTrade(symbol, prices[symbol], now);
        ManageStep(t1, s1, trades, stats, old(trades), old(stats), symbol, prices[symbol], now);
        pending := pending - {symbol};
      }
      ManagedConsequences(trades, stats, old(trades), old(stats), prices, now);
      assert forall s :: s in old(trades) ==> s in prices;
      failure := None;
    }

    /** One iteration of the `while True` loop of `run`: the scan, then the
        management pass over every record; an exception in either ends the
        iteration and is returned. */
    method RunCycle(klines: map<Symbol, seq<Candle>>, prices: map<Symbol, real>, now: real)
      returns (failure: Option<Exc>)
      requires Valid()
      modifies this
      ensures Valid()
      ensures symbols == old(symbols)
      ensures |trades| <= Max(|old(trades)|, MAX_TRADES)
      ensures trades.Keys <= old(trades).Keys + set s | s in symbols
    {
      failure := Scan(klines, now);
      if failure.Some? {
        return;
      }
      ghost var scanned := trades;
      failure := ManagePass(prices, now);
      assert trades.Keys <= scanned.Keys;
      assert |trades| <= |scanned| by {
        assert trades.Keys <= scanned.Keys;
        SubsetSize(trades.Keys, scanned.Keys);
      }
    }
  }

  lemma SubsetSize<T>(a: set<T>, b: set<T>)
    requires a <= b
    ensures |a| <= |b|
  {
    assert b == a + (b - a);
  }
}
