/** The directional backtest as it runs: cash, peak, open positions, closed trades and the equity
    curve are fields that each bar updates. Every method is proved equal to the function of
    TradingModel that specifies it. */
module TradingSimulator {
  import opened Common
  import opened TradingModel
  import Indicators

  class SimulatedPosition {
    const symbol: string
    const isLong: bool
    const quantity: real
    const entryPrice: real
    const entryTime: int
    const strategy: string
    const confidence: real
    const regime: Regime
    const targetPrice: Option<real>
    const entryBar: int
    var maxAdverseExcursion: real
    var maxFavorableExcursion: real

    constructor (signal: Signal, isLong: bool, quantity: real, entryPrice: real, entryTime: int, entryBar: int)
      ensures View() == Position(signal.symbol, isLong, quantity, entryPrice, entryTime, signal.strategy,
        signal.confidence, signal.regime, signal.targetPrice, entryBar, 0.0, 0.0)
    {
      this.symbol, this.isLong, this.quantity, this.entryPrice := signal.symbol, isLong, quantity, entryPrice;
      this.entryTime, this.strategy, this.confidence := entryTime, signal.strategy, signal.confidence;
      this.regime, this.targetPrice, this.entryBar := signal.regime, signal.targetPrice, entryBar;
      maxAdverseExcursion, maxFavorableExcursion := 0.0, 0.0;
    }

    function View(): Position
      reads this
    {
      Position(symbol, isLong, quantity, entryPrice, entryTime, strategy, confidence, regime, targetPrice,
        entryBar, maxAdverseExcursion, maxFavorableExcursion)
    }

    method UpdateExcursions(price: real)
      modifies this
      ensures View() == TradingModel.UpdateExcursions(old(View()), price)
    {
      var pnl := if isLong then price - entryPrice else entryPrice - price;
      var mae := maxAdverseExcursion;
      if pnl < -mae {
        maxAdverseExcursion := Abs(pnl);
      }
      if pnl > maxFavorableExcursion {
        maxFavorableExcursion := pnl;
      }
    }
  }

  class BacktestSimulator {
    const config: Config
    var cash: real
    var peakValue: real
    /** The open positions, in the order in which they were opened. */
    var positions: seq<SimulatedPosition>
    var closedTrades: seq<Trade>
    var equityCurve: seq<EquityPoint>

    constructor (config: Config)
      ensures this.config == config && Valid() && View() == InitialState(config)
    {
      this.config := config;
      cash, peakValue := config.capital, config.capital;
      positions, closedTrades, equityCurve := [], [], [];
    }

    /** There is never more than one open position. */
    ghost predicate Valid()
      reads this
    {
      |positions| <= 1
    }

    function OpenPositionView(): Option<Position>
      reads this, positions
    {
      if |positions| == 0 then None else Some(positions[0].View())
    }

    function View(): State
      reads this, positions
    {
      State(cash, peakValue, OpenPositionView(), closedTrades, equityCurve)
    }

    method UpdatePositions(price: real)
      requires Valid()
      modifies positions
      ensures Valid() && View() == Updated(old(View()), price)
    {
      hide TradingModel.UpdateExcursions;
      for i := 0 to |positions|
        invariant View() == if i == 0 then old(View()) else Updated(old(View()), price)
      {
        positions[i].UpdateExcursions(price);
      }
    }

    method ComputePortfolioValue(price: real) returns (value: real)
      requires Valid()
      ensures value == PortfolioValue(cash, OpenPositionView(), price)
    {
      var positionValue := 0.0;
      for i := 0 to |positions|
        invariant cash + positionValue == if i == 0 then cash else PortfolioValue(cash, OpenPositionView(), price)
      {
        var pos := positions[i];
        if pos.isLong {
          positionValue := positionValue + pos.quantity * price;
        } else {
          positionValue := positionValue - pos.quantity * price;
        }
      }
      value := cash + positionValue;
    }

    method OpenPosition(signal: Signal, bar: Candle, barIndex: int)
      requires Valid() && positions == []
      requires 1.0 + config.slippage != 0.0 && 1.0 - config.slippage != 0.0 && bar.open != 0.0
      modifies this
      ensures Valid() && (positions == [] || fresh(positions[0]))
      ensures View() == TradingModel.OpenPosition(config, old(View()), signal, bar, barIndex)
    {
      var isLong := signal.direction == Long;
      var entryPrice := EntryPrice(config, isLong, bar.open);
      var portfolioValue := ComputePortfolioValue(bar.open);
      var maxNotional := portfolioValue * config.maxPositionPct;
      maxNotional := MinReal(maxNotional, cash * MAX_CASH_SHARE);
      if maxNotional <= 0.0 {
        return;
      }
      var notional := maxNotional * signal.sizeHint * signal.confidence;
      assert notional == Notional(config, cash, signal);
      var quantity := notional / entryPrice;
      if quantity <= MIN_QUANTITY {
        return;
      }
      var fee := notional * config.takerFee;
      var totalCost := notional + fee;
      if totalCost > cash {
        return;
      }
      if isLong {
        cash := cash - totalCost;
      } else {
        cash := cash + (notional - fee);
      }
      var pos := new SimulatedPosition(signal, isLong, quantity, entryPrice, bar.timestamp, barIndex);
      positions := [pos];
    }

    method ClosePosition(price: real, time: int, barIndex: int, reason: Reason)
      requires Valid() && |positions| == 1 && 1.0 + config.slippage != 0.0
      modifies this
      ensures positions == []
      ensures View() == TradingModel.ClosePosition(config, old(View()), price, time, barIndex, reason)
    {
      hide ExitPrice, TradeOf;
      var pos := positions[0].View();
      var trade := TradeOf(config, pos, price, time, barIndex, reason);
      var exitNotional := pos.quantity * ExitPrice(config, pos.isLong, price);
      var exitFee := exitNotional * config.takerFee;
      if pos.isLong {
        cash := cash + (exitNotional - exitFee);
      } else {
        cash := cash - (exitNotional + exitFee);
      }
      closedTrades := closedTrades + [trade];
      positions := [];
    }

    /** The exits in priority order; a position in another symbol is left alone. */
    method CheckExits(barIndex: int, bar: Candle, window: seq<Candle>, regime: Regime)
      requires Valid() && 1.0 + config.slippage != 0.0
      modifies this
      ensures Valid() && (positions == old(positions) || positions == [])
      ensures View() == Exited(config, old(View()), bar, barIndex, window, regime)
    {
      hide StopAtr, TradingModel.ClosePosition;
      if |positions| == 0 {
        return;
      }
      var pos := positions[0].View();
      if pos.symbol != bar.symbol {
        return;
      }
      var barsHeld := barIndex - pos.entryBar;
      var exit: Option<Reason> := None;
      if pos.regime == Ranging && regime != Ranging {
        exit := Some(RegimeChange);
      }
      if exit.None? && StopHit(config, pos, bar.close, StopAtr(window)) {
        exit := Some(AtrStop);
      }
      if exit.None? && pos.targetPrice.Some? {
        if pos.isLong && bar.close >= pos.targetPrice.value {
          exit := Some(TargetReached);
        } else if !pos.isLong && bar.close <= pos.targetPrice.value {
          exit := Some(TargetReached);
        }
      }
      if exit.None? && barsHeld >= config.maxHoldingBars {
        exit := Some(TimeExit);
      }
      if exit.Some? {
        ClosePosition(bar.close, bar.timestamp, barIndex, exit.value);
      }
    }

    method RecordEquity(bar: Candle)
      requires Valid()
      modifies this`peakValue, this`equityCurve
      ensures View() == Recorded(old(View()), bar)
    {
      hide PortfolioValue;
      var value := ComputePortfolioValue(bar.close);
      if value > peakValue {
        peakValue := value;
      }
      var drawdown := 0.0;
      if peakValue > 0.0 {
        drawdown := (peakValue - value) / peakValue * 100.0;
      }
      equityCurve := equityCurve + [EquityPoint(bar.timestamp, value, cash, value - cash, drawdown)];
    }

    /** One turn of the loop for a bar that has features. */
    method ProcessBar(f: Indicators.FeatureSet, candles: seq<Candle>, i: nat)
      requires Valid() && Priced(config, candles) && i < |candles|
      modifies this, positions
      ensures Valid() && (positions == old(positions) || positions == [] || fresh(positions[0]))
      ensures View() == BarStep(config, old(View()), Some(f), candles, i)
    {
      hide Updated, Exited, GenerateSignal, DetectRegime, TradingModel.OpenPosition, Recorded;
      var bar := candles[i];
      var regime := DetectRegime(f);
      UpdatePositions(bar.close);
      CheckExits(i, bar, Window(candles, i), regime);
      assert View() == ExitPhase(config, old(View()), regime, candles, i);
      if |positions| == 0 {
        var signal := GenerateSignal(config, f, regime);
        if signal.Some? && i + 1 < |candles| {
          OpenPosition(signal.value, candles[i + 1], i);
        }
      }
      RecordEquity(bar);
    }

    method Run(candles: seq<Candle>) returns (trades: seq<Trade>, curve: seq<EquityPoint>)
      requires Valid() && Priced(config, candles)
      modifies this, positions
      ensures Valid() && positions == [] && View() == RunOf(config, candles)
      ensures trades == RunOf(config, candles).trades && curve == RunOf(config, candles).curve
    {
      hide BarStep, Before, Indicators.Precompute, TradingModel.ClosePosition;
      cash, peakValue := config.capital, config.capital;
      positions, closedTrades, equityCurve := [], [], [];
      var features := Indicators.Precompute(candles, config.sqrt);
      var i := WARMUP_BARS;
      AtStart(config, candles, MinInt(i, |candles|));
      while i < |candles|
        invariant Valid() && (positions == [] || fresh(positions[0]))
        invariant View() == Before(config, candles, MinInt(i, |candles|)) && i >= WARMUP_BARS
      {
        AtBar(config, candles, i);
        if features[i].Some? {
          ProcessBar(features[i].value, candles, i);
        }
        i := i + 1;
      }
      if |candles| > 0 {
        var last := candles[|candles| - 1];
        if |positions| > 0 {
          ClosePosition(last.close, last.timestamp, |candles| - 1, BacktestEnd);
        }
      }
      trades, curve := closedTrades, equityCurve;
    }
  }

  lemma AtStart(cfg: Config, candles: seq<Candle>, n: nat)
    requires Priced(cfg, candles) && n <= WARMUP_BARS && n <= |candles|
    ensures Before(cfg, candles, n) == InitialState(cfg)
  {
    hide BarStep, Indicators.Precompute;
  }

  lemma AtBar(cfg: Config, candles: seq<Candle>, i: nat)
    requires Priced(cfg, candles) && WARMUP_BARS <= i < |candles|
    ensures Before(cfg, candles, i + 1)
         == BarStep(cfg, Before(cfg, candles, i), Indicators.Precompute(candles, cfg.sqrt)[i], candles, i)
    ensures Indicators.Precompute(candles, cfg.sqrt)[i].None? ==>
      Before(cfg, candles, i + 1) == Before(cfg, candles, i)
  {
    hide Indicators.Precompute;
  }
}
