/**
 * The multi-coin strategy that settles each rotation through the ledger's
 * `execute_trx` (binance_trade_bot/strategies/multiple_coins_mongo_strategy.py).
 */
module MultiStrategy {
  import opened Wrappers
  import opened Faults
  import Ledger
  import opened Trading
  import EthStrategy

  /** How the settlement call hands the ticker price and the bought quantity to `execute_trx`. */
  datatype Binding =
    /** As written: `execute_trx(from, to, price_value, qnty)` binds `quantity := price_value`. */
    | Positional
    /** As evidently intended: `quantity := qnty`, `price_value := price_value`. */
    | ByName

  /** The ledger call made after a successful buy, with the arguments bound as `b` says. */
  function Settle(b: Binding, ledger: Ledger.Collection, from: Coin, to: Coin,
                  tickerPrice: real, qnty: real): Result<Ledger.Collection, Fault>
  {
    match b
    case Positional => Ledger.ExecuteTrx(ledger, from, to, tickerPrice, qnty)
    case ByName => Ledger.ExecuteTrx(ledger, from, to, qnty, tickerPrice)
  }

  /** The buy succeeded and the target has a ticker price: the settlement call is reached. */
  predicate Settles(g: BridgeAnswers)
  {
    !GateRaises(g) && (GateOpen(g) ==> g.sold.Some?)
    && g.bought.Some? && g.bought.value.price != 0.0 && g.toPrice.Some?
  }

  /** The settlement reached and `execute_trx`, bound as `b` says, succeeded. */
  predicate Settled(b: Binding, s: State, from: Coin, to: Coin, g: BridgeAnswers)
  {
    Settles(g) && Settle(b, s.ledger, from, to, g.toPrice.value, Bought(g.bought.value)).Success?
  }

  /**
   * `transaction_through_bridge` with the settlement arguments bound as `b`
   * says. A missing ticker price for the target raises inside `execute_trx`
   * before it writes anything.
   */
  function Bridge(b: Binding, s: State, from: Coin, to: Coin, g: BridgeAnswers): (st: Step<Option<OrderResult>>)
    // the strict sell gate and the aborts before the buy, as in the ETH strategy
    ensures SellAlt(from) in st.trace <==> GateOpen(g)
    ensures GateRaises(g) ==> st == Step(s, [], Raised(NoneOperand))
    ensures GateOpen(g) && g.sold.None? ==> st == Step(s, [SellAlt(from)], Returned(None))
    ensures BuyAlt(to) in st.trace <==> !GateRaises(g) && (GateOpen(g) ==> g.sold.Some?)
    ensures BuyAlt(to) in st.trace && g.bought.None? ==>
      st == Step(s, SoldTrace(g, from) + [BuyAlt(to)], Returned(None))
    // after a successful buy that does not settle, the coin is switched and the step raises
    ensures BuyAlt(to) in st.trace && g.bought.Some? && !Settled(b, s, from, to, g) ==>
      && st.state == s.(current := Some(to))
      && st.trace == BoughtTrace(g, from, to, g.bought.value.price)
      && st.status.Raised?
    ensures BuyAlt(to) in st.trace && g.bought.Some? && g.bought.value.price == 0.0 ==>
      st.status == Raised(DivisionByZero)
    ensures BuyAlt(to) in st.trace && g.bought.Some? && g.bought.value.price != 0.0 && g.toPrice.None? ==>
      st.status == Raised(NoneOperand)
    ensures Settles(g) && Settle(b, s.ledger, from, to, g.toPrice.value, Bought(g.bought.value)).Failure? ==>
      st.status == Raised(Settle(b, s.ledger, from, to, g.toPrice.value, Bought(g.bought.value)).error)
    // a settled rotation: the coin is switched, the ledger is the call's result, the source is dropped
    // and the target written
    ensures st.status.Returned? && st.status.value.Some? <==> Settled(b, s, from, to, g)
    ensures Settled(b, s, from, to, g) ==>
      var ledger := Settle(b, s.ledger, from, to, g.toPrice.value, Bought(g.bought.value)).value;
      st == Step(State(Some(to), ledger),
                 BoughtTrace(g, from, to, g.bought.value.price)
                 + [LedgerDrop(Ledger.QueryKey(from)), LedgerUpsert(Ledger.QueryKey(to), Ledger.Lookup(ledger, to))],
                 Returned(g.bought))
  {
    match SellGate(g)
    case Failure(f) => Step(s, [], Raised(f))
    case Success(canSell) =>
      var sold := if canSell then [SellAlt(from)] else [];
      if canSell && g.sold.None? then Step(s, sold, Returned(None))
      else
        var tried := sold + [BuyAlt(to)];
        match g.bought
        case None => Step(s, tried, Returned(None))
        case Some(res) =>
          var switched := s.(current := Some(to));
          var noted := tried + [SetCurrentCoin(to), UpdateTradeThreshold(to, res.price)];
          if res.price == 0.0 then Step(switched, noted, Raised(DivisionByZero))
          else
            match g.toPrice
            case None => Step(switched, noted, Raised(NoneOperand))
            case Some(priceValue) =>
              match Settle(b, s.ledger, from, to, priceValue, Bought(res))
              case Failure(f) => Step(switched, noted, Raised(f))
              case Success(ledger) =>
                var writes := [LedgerDrop(Ledger.QueryKey(from)),
                               LedgerUpsert(Ledger.QueryKey(to), Ledger.Lookup(ledger, to))];
                Step(switched.(ledger := ledger), noted + writes, Returned(Some(res)))
  }

  /**
   * `transaction_through_bridge` as written: the strict sell gate, abort on
   * a failed sell or buy, and on a successful buy switch the current coin
   * and call `execute_trx` with the ticker price in its `quantity` slot.
   */
  function TransactionThroughBridge(s: State, from: Coin, to: Coin, g: BridgeAnswers): (st: Step<Option<OrderResult>>)
    ensures SellAlt(from) in st.trace <==> GateOpen(g)
    ensures GateRaises(g) ==> st == Step(s, [], Raised(NoneOperand))
    ensures GateOpen(g) && g.sold.None? ==> st == Step(s, [SellAlt(from)], Returned(None))
    ensures !GateRaises(g) && !GateOpen(g) ==> |st.trace| > 0 && st.trace[0] == BuyAlt(to)
    ensures BuyAlt(to) in st.trace <==> !GateRaises(g) && (GateOpen(g) ==> g.sold.Some?)
    ensures BuyAlt(to) in st.trace && g.bought.None? ==>
      st == Step(s, SoldTrace(g, from) + [BuyAlt(to)], Returned(None))
    // once the buy succeeded the coin is switched, even if settlement then raises
    ensures BuyAlt(to) in st.trace && g.bought.Some? ==> st.state.current == Some(to)
    // a zero fill price, a missing ticker price or a failing `execute_trx` raise after the switch
    ensures BuyAlt(to) in st.trace && g.bought.Some? && g.bought.value.price == 0.0 ==>
      st.status == Raised(DivisionByZero)
    ensures BuyAlt(to) in st.trace && g.bought.Some? && g.bought.value.price != 0.0 && g.toPrice.None? ==>
      st.status == Raised(NoneOperand)
    ensures Settles(g) && Ledger.ExecuteTrx(s.ledger, from, to, g.toPrice.value, Bought(g.bought.value)).Failure? ==>
      st.status == Raised(Ledger.ExecuteTrx(s.ledger, from, to, g.toPrice.value, Bought(g.bought.value)).error)
    ensures BuyAlt(to) in st.trace && g.bought.Some? && !st.status.Returned? ==>
      st.state.ledger == s.ledger && st.trace == BoughtTrace(g, from, to, g.bought.value.price)
    ensures st.status.Returned? && st.status.value.Some? <==>
      Settles(g) && Ledger.ExecuteTrx(s.ledger, from, to, g.toPrice.value, Bought(g.bought.value)).Success?
    // the settlement: ticker price as `quantity`, bought amount as `price_value`
    ensures st.status.Returned? && st.status.value.Some? ==>
      && Settles(g)
      && st.status.value == g.bought
      && Ledger.ExecuteTrx(s.ledger, from, to, g.toPrice.value, Bought(g.bought.value)) == Success(st.state.ledger)
    // a settled rotation records the switch, the threshold update, the source's drop and the target's upsert
    ensures st.status.Returned? && st.status.value.Some? ==>
      st.trace == BoughtTrace(g, from, to, g.bought.value.price)
                  + [LedgerDrop(Ledger.QueryKey(from)),
                     LedgerUpsert(Ledger.QueryKey(to), Ledger.Lookup(st.state.ledger, to))]
    // the ledger changes only on a completed settlement
    ensures st.state.ledger != s.ledger ==> st.status == Returned(g.bought)
  {
    Bridge(Positional, s, from, to, g)
  }

  /** Every document other than the source's and the target's is left as it was. */
  lemma TransactionKeepsOtherRecords(s: State, from: Coin, to: Coin, g: BridgeAnswers, k: string)
    requires k != Ledger.QueryKey(from) && k != Ledger.QueryKey(to)
    ensures var ledger := TransactionThroughBridge(s, from, to, g).state.ledger;
            && (k in ledger <==> k in s.ledger)
            && (k in s.ledger ==> ledger[k] == s.ledger[k])
  {
  }

  /** The settlement never touches a record the ETH strategy keeps. */
  lemma TransactionKeepsEthRecords(s: State, from: Coin, to: Coin, g: BridgeAnswers, coin: Coin)
    ensures var k := EthStrategy.RecordKey(coin + EthStrategy.RecordQuote);
            var ledger := TransactionThroughBridge(s, from, to, g).state.ledger;
            && (k in ledger <==> k in s.ledger)
            && (k in s.ledger ==> ledger[k] == s.ledger[k])
  {
    EthStrategy.EthKeyIsNotBtcKey(coin, from);
    EthStrategy.EthKeyIsNotBtcKey(coin, to);
    TransactionKeepsOtherRecords(s, from, to, g, EthStrategy.RecordKey(coin + EthStrategy.RecordQuote));
  }

  /**
   * The corrected settlement, binding `quantity := qnty` and
   * `price_value := price_value`. Everything before the ledger call is as written.
   */
  function TransactionThroughBridgeByName(s: State, from: Coin, to: Coin, g: BridgeAnswers): (st: Step<Option<OrderResult>>)
    ensures SellAlt(from) in st.trace <==> GateOpen(g)
    ensures BuyAlt(to) in st.trace <==> !GateRaises(g) && (GateOpen(g) ==> g.sold.Some?)
    ensures BuyAlt(to) in st.trace && g.bought.None? ==> st.state == s && st.status == Returned(None)
    // a bought coin that does not settle is still switched to, and the step raises
    ensures BuyAlt(to) in st.trace && g.bought.Some? && !(st.status.Returned? && st.status.value.Some?) ==>
      st.state == s.(current := Some(to)) && st.status.Raised?
    ensures st.status.Returned? && st.status.value.Some? ==>
      && Settles(g)
      && st.state.current == Some(to)
      && Ledger.ExecuteTrx(s.ledger, from, to, Bought(g.bought.value), g.toPrice.value) == Success(st.state.ledger)
    // the target's quantity grows by exactly the bought amount
    ensures st.status.Returned? && st.status.value.Some? ==>
      Ledger.Lookup(st.state.ledger, to).quantity
      == Bought(g.bought.value) + Ledger.Lookup(s.ledger, to).quantity
    ensures st.state.ledger != s.ledger ==> st.status == Returned(g.bought)
  {
    Bridge(ByName, s, from, to, g)
  }

  /**
   * Corrected cold start: with no record for either coin and a positive
   * bought amount, the target is recorded at the ticker price times the fee
   * multiplier, for the bought amount.
   */
  lemma ByNameColdStart(s: State, from: Coin, to: Coin, g: BridgeAnswers)
    requires Settles(g) && Bought(g.bought.value) > 0.0
    requires Ledger.QueryKey(from) !in s.ledger && Ledger.QueryKey(to) !in s.ledger
    ensures var st := TransactionThroughBridgeByName(s, from, to, g);
            && st.status == Returned(g.bought)
            && Ledger.Lookup(st.state.ledger, to)
               == Ledger.Entry(Some(g.toPrice.value * Ledger.FeeMultiplier), Bought(g.bought.value))
  {
    Ledger.ExecuteTrxColdStart(s.ledger, from, to, Bought(g.bought.value), g.toPrice.value);
  }

  /**
   * As written, a cold-start rotation that buys 100 coins at a ticker price
   * of 0.0001 records a quantity of 0.0001 at an average price of 101.5;
   * the corrected call records 100 coins at 0.0001015.
   */
  lemma PositionalSwapCounterexample()
    ensures var s := State(Some("ADA"), map[]);
            var g := BridgeAnswers(0.0, None, 0.0, None, Some(OrderResult(0.5, 50.0)), Some(0.0001));
            && Ledger.Lookup(TransactionThroughBridge(s, "ADA", "XRP", g).state.ledger, "XRP")
               == Ledger.Entry(Some(101.5), 0.0001)
            && Ledger.Lookup(TransactionThroughBridgeByName(s, "ADA", "XRP", g).state.ledger, "XRP")
               == Ledger.Entry(Some(0.0001015), 100.0)
  {
    var s := State(Some("ADA"), map[]);
    var g := BridgeAnswers(0.0, None, 0.0, None, Some(OrderResult(0.5, 50.0)), Some(0.0001));
    assert Bought(g.bought.value) == 100.0;
    Ledger.ExecuteTrxColdStart(s.ledger, "ADA", "XRP", 0.0001, 100.0);
    Ledger.ExecuteTrxColdStart(s.ledger, "ADA", "XRP", 100.0, 0.0001);
  }

  /** What `scout` reads about one coin of `get_coins()`. */
  datatype CoinView = CoinView(symbol: Coin, balance: real, price: Option<real>, minNotional: real)

  /** `current_coin_symbol`: the current coin's symbol, or "" when there is none. */
  function CurrentSymbol(current: Option<Coin>): (symbol: string)
    ensures current.Some? ==> symbol == current.value
    ensures current.None? ==> symbol == ""
  {
    if current.Some? then current.value else ""
  }

  /**
   * A coin is scouted from unless its price is missing, or it is not the
   * current coin and `price * balance < min_notional`.
   */
  predicate Qualifies(v: CoinView, currentSymbol: string)
    ensures v.price.None? ==> !Qualifies(v, currentSymbol)
    ensures v.price.Some? && v.symbol == currentSymbol ==> Qualifies(v, currentSymbol)
    ensures v.price.Some? && v.symbol != currentSymbol ==>
      (Qualifies(v, currentSymbol) <==> v.price.value * v.balance >= v.minNotional)
    ensures v.price.Some? && v.price.value * v.balance == v.minNotional ==> Qualifies(v, currentSymbol)
  {
    v.price.Some? && !(v.symbol != currentSymbol && v.price.value * v.balance < v.minNotional)
  }

  /** The jump a qualifying coin triggers. */
  function JumpFrom(v: CoinView): Effect
    requires v.price.Some?
  {
    JumpToBestCoin(v.symbol, v.price.value)
  }

  /** Reference: one jump per qualifying coin, in `get_coins()` order. */
  function Jumps(views: seq<CoinView>, currentSymbol: string): (jumps: seq<Effect>)
    ensures |jumps| <= |views|
    ensures forall k :: 0 <= k < |jumps| ==> jumps[k].JumpToBestCoin?
  {
    if |views| == 0 then []
    else
      var last := views[|views| - 1];
      Jumps(views[..|views| - 1], currentSymbol) + (if Qualifies(last, currentSymbol) then [JumpFrom(last)] else [])
  }

  /** The jumps of a concatenation are the jumps of its parts, in order. */
  lemma {:induction false} JumpsConcat(a: seq<CoinView>, b: seq<CoinView>, currentSymbol: string)
    ensures Jumps(a + b, currentSymbol) == Jumps(a, currentSymbol) + Jumps(b, currentSymbol)
    decreases |b|
  {
    if |b| == 0 {
      assert a + b == a;
    } else {
      var b' := b[..|b| - 1];
      assert (a + b)[..|a + b| - 1] == a + b';
      JumpsConcat(a, b', currentSymbol);
    }
  }

  /** Every jump is from a priced, qualifying coin, at that coin's price. */
  lemma {:induction false} JumpsFromQualifying(views: seq<CoinView>, currentSymbol: string, k: nat)
    requires k < |Jumps(views, currentSymbol)|
    ensures exists i :: 0 <= i < |views| && Qualifies(views[i], currentSymbol)
                        && Jumps(views, currentSymbol)[k] == JumpFrom(views[i])
  {
    var n := |views| - 1;
    var front := views[..n];
    if k < |Jumps(front, currentSymbol)| {
      JumpsFromQualifying(front, currentSymbol, k);
      var i :| 0 <= i < |front| && Qualifies(front[i], currentSymbol)
               && Jumps(front, currentSymbol)[k] == JumpFrom(front[i]);
      assert views[i] == front[i];
    } else {
      assert Jumps(views, currentSymbol)[k] == JumpFrom(views[n]);
    }
  }

  /** Every qualifying coin produces its jump. */
  lemma {:induction false} QualifyingCoinJumps(views: seq<CoinView>, currentSymbol: string, i: nat)
    requires i < |views| && Qualifies(views[i], currentSymbol)
    ensures JumpFrom(views[i]) in Jumps(views, currentSymbol)
  {
    var n := |views| - 1;
    if i < n {
      var front := views[..n];
      assert front[i] == views[i];
      QualifyingCoinJumps(front, currentSymbol, i);
    }
  }

  /** No coin of `views` qualifies. */
  predicate NoneQualifies(views: seq<CoinView>, currentSymbol: string)
  {
    forall i :: 0 <= i < |views| ==> !Qualifies(views[i], currentSymbol)
  }

  /** No jump happens exactly when no coin qualifies. */
  lemma {:induction false} JumpsEmptyIff(views: seq<CoinView>, currentSymbol: string)
    ensures Jumps(views, currentSymbol) == [] <==> NoneQualifies(views, currentSymbol)
  {
    if Jumps(views, currentSymbol) != [] {
      JumpsFromQualifying(views, currentSymbol, 0);
    }
    forall i | 0 <= i < |views| && Qualifies(views[i], currentSymbol)
      ensures Jumps(views, currentSymbol) != []
    {
      QualifyingCoinJumps(views, currentSymbol, i);
    }
  }

  /**
   * `scout`: walk `get_coins()` in order, hand every qualifying coin to the
   * ranking jump, and fall back to the base class's `bridge_scout` when no
   * coin qualified.
   */
  method Scout(current: Option<Coin>, views: seq<CoinView>) returns (effects: seq<Effect>)
    ensures Jumps(views, CurrentSymbol(current)) != [] ==> effects == Jumps(views, CurrentSymbol(current))
    ensures Jumps(views, CurrentSymbol(current)) == [] ==> effects == [ParentBridgeScout]
    ensures ParentBridgeScout in effects <==> NoneQualifies(views, CurrentSymbol(current))
  {
    var currentSymbol := CurrentSymbol(current);
    var haveCoin := false;
    effects := [];
    var i := 0;
    while i < |views|
      invariant 0 <= i <= |views|
      invariant effects == Jumps(views[..i], currentSymbol)
      invariant haveCoin <==> effects != []
    {
      var coin := views[i];
      assert views[..i + 1][..i] == views[..i];
      if coin.price.Some? {
        var skip := coin.symbol != currentSymbol && coin.price.value * coin.balance < coin.minNotional;
        if !skip {
          haveCoin := true;
          effects := effects + [JumpToBestCoin(coin.symbol, coin.price.value)];
        }
      }
      i := i + 1;
    }
    assert views[..i] == views;
    JumpsEmptyIff(views, currentSymbol);
    if !haveCoin {
      effects := effects + [ParentBridgeScout];
    }
  }
}
