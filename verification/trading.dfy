/**
 * What both strategies share: the bot's state (current coin and ledger),
 * the trace of effects a step performs on the exchange, the database or the
 * trader base class, and the answers the exchange gateway gives during one
 * bridge transaction.
 */
module Trading {
  import opened Wrappers
  import opened Faults
  import Ledger

  /** A coin, by its ticker symbol. */
  type Coin = string

  /** What `buy_alt` / `sell_alt` return on success. */
  datatype OrderResult = OrderResult(price: real, cumulativeQuoteQty: real)

  /** The bought quantity, `cumulative_quote_qty / price`. */
  function Bought(res: OrderResult): real
    requires res.price != 0.0
  {
    res.cumulativeQuoteQty / res.price
  }

  /** The persistent state: the current coin in the trader database and the cost-basis ledger. */
  datatype State = State(current: Option<Coin>, ledger: Ledger.Collection)

  /** An externally visible action, in the order it happens. */
  datatype Effect =
    | SellAlt(coin: Coin)
    | BuyAlt(coin: Coin)
    | SetCurrentCoin(coin: Coin)
    | UpdateTradeThreshold(coin: Coin, price: real)
    | LedgerDrop(key: string)
    | LedgerUpsert(key: string, entry: Ledger.Entry)
    /** The trader base class's ranking and jump, from `coin` priced at `price`. */
    | JumpToBestCoin(coin: Coin, price: real)
    /** The trader base class's own `bridge_scout`. */
    | ParentBridgeScout

  /** How a step ended: it returned a value, or an exception escaped. */
  datatype Status<+T> = Returned(value: T) | Raised(fault: Fault)

  /** The state after a step, what it did, and how it ended. */
  datatype Step<+T> = Step(state: State, trace: seq<Effect>, status: Status<T>)

  /**
   * The gateway's answers during one `transaction_through_bridge`, in call
   * order: the source balance, the source's bridge price, the minimum
   * notional, the sell outcome, the buy outcome and the target's ticker price.
   * An answer the code does not ask for is ignored.
   */
  datatype BridgeAnswers = BridgeAnswers(
    balance: real,
    fromPrice: Option<real>,
    minNotional: real,
    sold: Option<OrderResult>,
    bought: Option<OrderResult>,
    toPrice: Option<real>)

  /** A nonzero balance with no ticker price makes `balance * price` raise. */
  predicate GateRaises(g: BridgeAnswers)
  {
    g.balance != 0.0 && g.fromPrice.None?
  }

  /** The sell leg runs only for a nonzero balance worth strictly more than the minimum notional. */
  predicate GateOpen(g: BridgeAnswers)
  {
    g.balance != 0.0 && g.fromPrice.Some? && g.balance * g.fromPrice.value > g.minNotional
  }

  /** The sell leg of a transaction's trace: present exactly when the gate was open. */
  function SoldTrace(g: BridgeAnswers, from: Coin): seq<Effect>
  {
    if GateOpen(g) then [SellAlt(from)] else []
  }

  /**
   * The trace up to and including the bookkeeping of a successful buy at
   * fill price `price`: the sell if any, the buy, the coin switch and the
   * trade-threshold update.
   */
  function BoughtTrace(g: BridgeAnswers, from: Coin, to: Coin, price: real): seq<Effect>
  {
    SoldTrace(g, from) + [BuyAlt(to), SetCurrentCoin(to), UpdateTradeThreshold(to, price)]
  }

  /**
   * `balance and balance * from_coin_price > min_notional`: Python's
   * short-circuit `and` skips the product for a zero balance.
   */
  function SellGate(g: BridgeAnswers): (r: Result<bool, Fault>)
    ensures r.Failure? <==> GateRaises(g)
    ensures r == Success(true) <==> GateOpen(g)
    ensures g.fromPrice.Some? && g.balance * g.fromPrice.value == g.minNotional ==> r == Success(false)
  {
    if g.balance == 0.0 then Success(false)
    else if g.fromPrice.None? then Failure(NoneOperand)
    else Success(g.balance * g.fromPrice.value > g.minNotional)
  }
}
