/**
 * The single-coin strategy that records an ETH-quoted buy price
 * (binance_trade_bot/strategies/default_mongo_eth_strategy.py).
 */
module EthStrategy {
  import opened Wrappers
  import opened Faults
  import Ledger
  import opened Trading

  /** The quote unit of the records this strategy writes. */
  const RecordQuote: string := "ETH"

  /** The "key" this strategy files a pair symbol's record under. */
  function RecordKey(symbol: string): string
  {
    symbol + Ledger.KeySuffix
  }

  /**
   * `update_mongodb_last_buy_price`: find-or-replace the record for `symbol`.
   * When the database cannot be opened the error is logged and nothing is
   * written; `dbAvailable` is that outcome.
   */
  function UpdateLastBuyPrice(c: Ledger.Collection, dbAvailable: bool, symbol: string,
                              buyPrice: Option<real>, quantity: real): (r: Ledger.Collection)
    ensures !dbAvailable ==> r == c
    ensures dbAvailable ==> r == c[RecordKey(symbol) := Ledger.Entry(buyPrice, quantity)]
  {
    if !dbAvailable then c
    else
      var key := RecordKey(symbol);
      Ledger.UpdateOne(c, key, key, Ledger.Entry(buyPrice, quantity))
  }

  /** A key ending in "ETH-last-buy-price" never equals one ending in "BTC-last-buy-price". */
  lemma {:induction false} EthKeyIsNotBtcKey(coin: Coin, symbol: string)
    ensures RecordKey(coin + RecordQuote) != Ledger.QueryKey(symbol)
  {
    var a := RecordKey(coin + RecordQuote);
    var b := Ledger.QueryKey(symbol);
    assert a[|coin|] == 'E';
    assert b[|symbol|] == 'B';
    assert |a| == |b| ==> |coin| == |symbol|;
  }

  /** Writing an ETH-quoted record leaves every BTC-quoted record as it was. */
  lemma EthWriteKeepsBtcRecords(c: Ledger.Collection, dbAvailable: bool, coin: Coin,
                                buyPrice: Option<real>, quantity: real, symbol: string)
    ensures Ledger.Lookup(UpdateLastBuyPrice(c, dbAvailable, coin + RecordQuote, buyPrice, quantity), symbol)
         == Ledger.Lookup(c, symbol)
  {
    EthKeyIsNotBtcKey(coin, symbol);
  }

  /**
   * `transaction_through_bridge`: sell `from` for the bridge coin when the
   * gate allows, then buy `to`; on a successful buy make `to` current and
   * overwrite its ETH-quoted record with the ticker price and the bought
   * quantity, without averaging against any earlier record.
   */
  function TransactionThroughBridge(s: State, from: Coin, to: Coin, g: BridgeAnswers,
                                    dbAvailable: bool): (st: Step<Option<OrderResult>>)
    // the sell is attempted exactly when the strict gate is open
    ensures SellAlt(from) in st.trace <==> GateOpen(g)
    // a nonzero balance without a price raises before anything happens
    ensures GateRaises(g) ==> st == Step(s, [], Raised(NoneOperand))
    // a failed sell aborts: no buy, nothing changes
    ensures GateOpen(g) && g.sold.None? ==> st == Step(s, [SellAlt(from)], Returned(None))
    // a closed gate goes straight to the buy
    ensures !GateRaises(g) && !GateOpen(g) ==> |st.trace| > 0 && st.trace[0] == BuyAlt(to)
    ensures BuyAlt(to) in st.trace <==> !GateRaises(g) && (GateOpen(g) ==> g.sold.Some?)
    // a failed buy aborts with nothing changed
    ensures BuyAlt(to) in st.trace && g.bought.None? ==>
      st == Step(s, SoldTrace(g, from) + [BuyAlt(to)], Returned(None))
    // the transaction returns the buy result exactly when the buy succeeded with a nonzero price
    ensures st.status.Returned? && st.status.value.Some? <==>
      BuyAlt(to) in st.trace && g.bought.Some? && g.bought.value.price != 0.0
    ensures st.status.Returned? && st.status.value.Some? ==>
      && st.status.value == g.bought
      && st.state.current == Some(to)
      && st.state.ledger
         == (if dbAvailable
             then s.ledger[RecordKey(to + RecordQuote) :=
                             Ledger.Entry(g.toPrice, Bought(g.bought.value))]
             else s.ledger)
    // a successful buy records the switch, the threshold update and, with the database available, the write
    ensures st.status.Returned? && st.status.value.Some? ==>
      st.trace == BoughtTrace(g, from, to, g.bought.value.price)
                  + (if dbAvailable
                     then [LedgerUpsert(RecordKey(to + RecordQuote),
                                        Ledger.Entry(g.toPrice, Bought(g.bought.value)))]
                     else [])
    // a zero fill price raises after the coin was switched, before the ledger write
    ensures BuyAlt(to) in st.trace && g.bought.Some? && g.bought.value.price == 0.0 ==>
      st == Step(s.(current := Some(to)), BoughtTrace(g, from, to, 0.0), Raised(DivisionByZero))
    // nothing changes before a successful buy
    ensures st.state != s ==> BuyAlt(to) in st.trace && g.bought.Some? && st.state.current == Some(to)
  {
    match SellGate(g)
    case Failure(f) => Step(s, [], Raised(f))
    case Success(canSell) =>
      var sold := if canSell then [SellAlt(from)] else [];
      if canSell && g.sold.None? then Step(s, sold, Returned(None))
      else
        var tried := sold + [BuyAlt(to)];
        match g.bought
        case None => Step(s, tried, Returned(None))
        case Some(res) =>
          var switched := s.(current := Some(to));
          var noted := tried + [SetCurrentCoin(to), UpdateTradeThreshold(to, res.price)];
          if res.price == 0.0 then Step(switched, noted, Raised(DivisionByZero))
          else
            var symbol := to + RecordQuote;
            var quantity := Bought(res);
            var ledger := UpdateLastBuyPrice(s.ledger, dbAvailable, symbol, g.toPrice, quantity);
            var written := if dbAvailable then [LedgerUpsert(RecordKey(symbol), Ledger.Entry(g.toPrice, quantity))] else [];
            Step(switched.(ledger := ledger), noted + written, Returned(Some(res)))
  }

  /** Whatever the outcome, no BTC-quoted record changes. */
  lemma TransactionKeepsBtcRecords(s: State, from: Coin, to: Coin, g: BridgeAnswers,
                                   dbAvailable: bool, symbol: string)
    ensures Ledger.Lookup(TransactionThroughBridge(s, from, to, g, dbAvailable).state.ledger, symbol)
         == Ledger.Lookup(s.ledger, symbol)
  {
    var st := TransactionThroughBridge(s, from, to, g, dbAvailable);
    if st.status.Returned? && st.status.value.Some? {
      var res := g.bought.value;
      EthWriteKeepsBtcRecords(s.ledger, dbAvailable, to, g.toPrice, Bought(res), symbol);
    }
  }

  /**
   * The record written on success does not depend on what was stored
   * before: two ledgers that differ in anything give the same record.
   */
  lemma TransactionOverwritesWithoutAveraging(s: State, s': State, from: Coin, to: Coin, g: BridgeAnswers)
    requires TransactionThroughBridge(s, from, to, g, true).status == Returned(g.bought)
    requires g.bought.Some?
    ensures var k := RecordKey(to + RecordQuote);
            && k in TransactionThroughBridge(s, from, to, g, true).state.ledger
            && k in TransactionThroughBridge(s', from, to, g, true).state.ledger
            && TransactionThroughBridge(s, from, to, g, true).state.ledger[k]
               == TransactionThroughBridge(s', from, to, g, true).state.ledger[k]
  {
  }

  /**
   * `scout`: skip the cycle when the current coin has no ticker price,
   * otherwise hand the current coin and its price to the ranking jump once.
   */
  function Scout(s: State, price: Option<real>): (st: Step<()>)
    ensures st.state == s
    ensures s.current.None? ==> st == Step(s, [], Raised(NoneOperand))
    ensures st.status.Raised? <==> s.current.None?
    ensures st.trace != [] <==> s.current.Some? && price.Some?
    ensures st.trace != [] ==> s.current.Some? && price.Some?
                               && st.trace == [JumpToBestCoin(s.current.value, price.value)]
  {
    match s.current
    case None => Step(s, [], Raised(NoneOperand))
    case Some(coin) =>
      match price
      case None => Step(s, [], Returned(()))
      case Some(p) => Step(s, [JumpToBestCoin(coin, p)], Returned(()))
  }

  /**
   * `bridge_scout`: when the raw balance of the current coin (not its
   * bridge value) exceeds the minimum notional, do nothing; otherwise run
   * the base class's bridge scout and make its pick, if any, current.
   */
  function BridgeScout(s: State, balance: real, minNotional: real, parentPick: Option<Coin>): (st: Step<()>)
    ensures st.state.ledger == s.ledger
    ensures s.current.None? ==> st == Step(s, [], Raised(NoneOperand))
    ensures s.current.Some? && balance > minNotional ==> st == Step(s, [], Returned(()))
    ensures ParentBridgeScout in st.trace <==> s.current.Some? && balance <= minNotional
    ensures st.state.current != s.current ==>
      ParentBridgeScout in st.trace && parentPick.Some? && st.state.current == parentPick
    ensures s.current.Some? && balance <= minNotional && parentPick.Some? ==>
      st == Step(s.(current := parentPick), [ParentBridgeScout, SetCurrentCoin(parentPick.value)], Returned(()))
    ensures s.current.Some? && balance <= minNotional && parentPick.None? ==>
      st == Step(s, [ParentBridgeScout], Returned(()))
  {
    if s.current.None? then Step(s, [], Raised(NoneOperand))
    else if balance > minNotional then Step(s, [], Returned(()))
    else
      match parentPick
      case None => Step(s, [ParentBridgeScout], Returned(()))
      case Some(c) => Step(s.(current := Some(c)), [ParentBridgeScout, SetCurrentCoin(c)], Returned(()))
  }

  /**
   * `initialize_current_coin`: with no current coin, take the configured
   * symbol ("" meaning none) or the random pick `supported[choice]`; exit
   * when the symbol is unsupported; make it current; and buy it when it was
   * picked at random.
   */
  function InitializeCurrentCoin(s: State, configured: string, supported: seq<Coin>, choice: nat): (st: Step<()>)
    requires |supported| > 0 ==> choice < |supported|
    ensures st.state.ledger == s.ledger
    ensures s.current.Some? ==> st == Step(s, [], Returned(()))
    ensures st.status.Raised? ==> st.state == s && st.trace == []
    ensures st.status == Raised(ExitUnsupportedCoin) <==>
      s.current.None? && configured != "" && configured !in supported
    ensures st.status.Returned? && s.current.None? ==>
      st.state.current.Some? && st.state.current.value in supported
    ensures s.current.None? && configured == "" && |supported| > 0 ==>
      st == Step(s.(current := Some(supported[choice])),
                 [SetCurrentCoin(supported[choice]), BuyAlt(supported[choice])], Returned(()))
    ensures s.current.None? && configured == "" && |supported| == 0 ==> st.status == Raised(EmptyChoice)
    ensures s.current.None? && configured != "" && configured in supported ==>
      st == Step(s.(current := Some(configured)), [SetCurrentCoin(configured)], Returned(()))
  {
    if s.current.Some? then Step(s, [], Returned(()))
    else if configured == "" && |supported| == 0 then Step(s, [], Raised(EmptyChoice))
    else
      var symbol := if configured == "" then supported[choice] else configured;
      if symbol !in supported then Step(s, [], Raised(ExitUnsupportedCoin))
      else
        var chosen := s.(current := Some(symbol));
        if configured == "" then Step(chosen, [SetCurrentCoin(symbol), BuyAlt(symbol)], Returned(()))
        else Step(chosen, [SetCurrentCoin(symbol)], Returned(()))
  }
}
