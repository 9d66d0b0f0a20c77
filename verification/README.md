# Coin-rotation trading bot: bridge transactions and the cost-basis ledger

This project models, in Dafny, the decision and bookkeeping core of a Binance
coin-rotation bot that settles through MongoDB. The bot holds one "current"
coin. It rotates from one coin to another through a bridge coin: it sells the
source coin, then buys the target. Each rotation writes a cost-basis record
to the `trailing-trade-symbols` collection.

The model is made of pure functions over a small state. That state is the
current coin plus the ledger, a map from a record's `key` field to its
`(lastBuyPrice, quantity)` pair. Every answer from the exchange gateway, and
every choice of the trader base class, is a plain input. Each step returns
three things:

- the new state;
- a trace of effects: sells, buys, coin switches, ledger writes, calls into the base class;
- a status: it returned a value, or a Python exception escaped.

The status is how crashes are modelled. A `TypeError` on `None`, a
`ZeroDivisionError`, the `IndexError` of `random.choice` and `sys.exit` are
all values. The state is kept as it was at the moment of the exception.

Modules:

- `Wrappers` (`wrappers.dfy`): `Option` and `Result`.
- `Faults` (`faults.dfy`): the exceptions that can end a step.
- `Ledger` (`ledger.dfy`): `mongo_db.py`. It covers key building, lookup with the
  `(0, 0)` default, delete, find-or-replace upsert, and `execute_trx`, which
  takes a fee-adjusted weighted average with the constant 1.015.
- `Trading` (`trading.dfy`): what both strategies share. This is the state, the
  effect trace, the gateway answers of one transaction, and the strict sell gate.
- `EthStrategy` (`eth_strategy.dfy`): `default_mongo_eth_strategy.py`. It covers
  the ETH-quoted record write, `scout`, `bridge_scout`, `transaction_through_bridge`
  and `initialize_current_coin`.
- `MultiStrategy` (`multi_strategy.dfy`): `multiple_coins_mongo_strategy.py`. It
  covers `transaction_through_bridge` with its `execute_trx` call, and the `scout`
  candidate loop.

The comparisons differ from site to site, and the model states each one where it occurs:

- The sell gate needs a nonzero balance with `balance * price > min_notional`, strictly.
- The multi-coin scout skips a non-current coin only when `price * balance < min_notional`, so equality qualifies.
- The ETH `bridge_scout` compares the raw balance, not its bridge value, with `min_notional`, using `>`.

## Model

| member | source | states |
|---|---|---|
| `Ledger.UpdateOne` | binance_trade_bot/mongo_db.py:35-44 | after `update_one(..., upsert=True)` the document holds the new entry under the key written by `$set`; every other key is untouched; when the filter key equals the written key this is plain replace-or-insert; when they differ the filter's key no longer holds a document |
| `Ledger.QueryKey` | binance_trade_bot/mongo_db.py:5-11 | the filter of a symbol's document is the symbol followed by exactly `BTC-last-buy-price` |
| `Ledger.SetKey` | binance_trade_bot/mongo_db.py:38 | the key an upsert writes equals the key its filter looks for |
| `Ledger.Lookup` | binance_trade_bot/mongo_db.py:22-28 | a symbol with no document reads as `(0, 0)`; otherwise the stored pair is returned |
| `Ledger.Drop` | binance_trade_bot/mongo_db.py:30-33 | after a drop the symbol reads as `(0, 0)`; dropping an absent symbol leaves the collection unchanged; only that symbol's key goes, and every other document keeps its value |
| `Ledger.Upsert` | binance_trade_bot/mongo_db.py:35-44 | upsert then lookup of the same symbol gives exactly `(buy_price, quantity)`, because the filter key and the written key agree; only that key is added, and every other document keeps its value |
| `Ledger.QueryKeyInjective` | binance_trade_bot/mongo_db.py:8-11 | distinct symbols get distinct `<SYMBOL>BTC-last-buy-price` keys |
| `Ledger.UpsertKeepsOthers` | binance_trade_bot/mongo_db.py:35-44 | an upsert of one symbol leaves every other symbol's lookup unchanged |
| `Ledger.DropKeepsOthers` | binance_trade_bot/mongo_db.py:30-33 | a drop of one symbol leaves every other symbol's lookup unchanged |
| `Ledger.UpsertIdempotent` | binance_trade_bot/mongo_db.py:35-44 | repeating the same upsert gives the same collection as doing it once |
| `Ledger.ExecuteTrx` | binance_trade_bot/mongo_db.py:46-61 | it raises exactly when the source or target price is stored as null (`NoneOperand`, Python's `TypeError`) or, failing that, when the total quantity is 0 (`DivisionByZero`); on success the source record is gone unless source equals target, the target quantity is `quantity + ` its old quantity, the key set loses the source's key and gains the target's, and every other document keeps its value |
| `Ledger.ExecuteTrxTargetRecord` | binance_trade_bot/mongo_db.py:53-59 | the new target record, price times quantity, equals `(old target worth + total spent) * 1.015`: it is the weighted average including the fee |
| `Ledger.ExecuteTrxKeepsOthers` | binance_trade_bot/mongo_db.py:60-61 | every symbol other than the source and the target keeps its record |
| `Ledger.ExecuteTrxChargesSourceWorth` | binance_trade_bot/mongo_db.py:47-59 | with a nonzero stored source price, the new target record's price times quantity is `(old target price * old target quantity + source price * source quantity) * 1.015` |
| `Ledger.ExecuteTrxChargesPaidPrice` | binance_trade_bot/mongo_db.py:47-59 | with a stored source price of 0, the new target record's price times quantity is `(old target price * old target quantity + price_value * quantity) * 1.015` |
| `Ledger.ExecuteTrxIgnoresPriceWhenSourceKnown` | binance_trade_bot/mongo_db.py:47-51 | when the source's stored price is nonzero, `price_value` does not affect the result |
| `Ledger.ExecuteTrxColdStart` | binance_trade_bot/mongo_db.py:48-59 | with no record for either symbol and `quantity > 0`, the target is stored as `(price_value * 1.015, quantity)` |
| `Ledger.ExecuteTrxNonNegative` | binance_trade_bot/mongo_db.py:48-59 | non-negative stored records, `quantity > 0` and `price_value >= 0` give success and a non-negative stored average and quantity |
| `Trading.SellGate` | binance_trade_bot/strategies/default_mongo_eth_strategy.py:70-79 | the sell is allowed exactly for a nonzero balance with `balance * price > min_notional`; a value equal to the minimum does not sell; a nonzero balance with no price raises (the same code is at multiple_coins_mongo_strategy.py:12-21) |
| `EthStrategy.UpdateLastBuyPrice` | binance_trade_bot/strategies/default_mongo_eth_strategy.py:14-32 | with the database available, the record under `<symbol>-last-buy-price` is replaced or inserted with the given pair; otherwise nothing is written |
| `EthStrategy.EthKeyIsNotBtcKey` | binance_trade_bot/strategies/default_mongo_eth_strategy.py:21 | a key `<COIN>ETH-last-buy-price` never equals a ledger key `<SYMBOL>BTC-last-buy-price` |
| `EthStrategy.EthWriteKeepsBtcRecords` | binance_trade_bot/strategies/default_mongo_eth_strategy.py:14-32 | an ETH-quoted write leaves every BTC-keyed lookup unchanged |
| `EthStrategy.TransactionThroughBridge` | binance_trade_bot/strategies/default_mongo_eth_strategy.py:66-99 | the sell is attempted iff the strict gate is open; a failed sell returns `None` with no buy and no change; a closed gate goes straight to the buy; a failed buy returns `None` with no change; a successful buy switches the coin, updates the trade threshold and replaces the `<to>ETH` record with `(ticker price, cumulative_quote_qty / price)`, with no averaging, and the trace lists exactly those effects; a zero fill price raises after the switch and before the write |
| `EthStrategy.TransactionKeepsBtcRecords` | binance_trade_bot/strategies/default_mongo_eth_strategy.py:87-96 | whatever the outcome, the ETH strategy's transaction changes no BTC-keyed record |
| `EthStrategy.TransactionOverwritesWithoutAveraging` | binance_trade_bot/strategies/default_mongo_eth_strategy.py:90-93 | the record written on success is the same whatever the ledger held before |
| `EthStrategy.Scout` | binance_trade_bot/strategies/default_mongo_eth_strategy.py:34-53 | a missing current coin raises `NoneOperand` with nothing done; no jump when the ticker price is missing; otherwise exactly one jump, from the current coin at its price; the state never changes |
| `EthStrategy.BridgeScout` | binance_trade_bot/strategies/default_mongo_eth_strategy.py:55-64 | nothing happens when the raw balance exceeds `min_notional`; otherwise the base class's bridge scout runs, and its pick, if any, becomes current with a `set_current_coin`; with no pick it returns with nothing else done; the ledger never changes |
| `EthStrategy.InitializeCurrentCoin` | binance_trade_bot/strategies/default_mongo_eth_strategy.py:101-121 | a no-op when a coin is current; an unsupported configured coin exits with no coin set; the random pick `supported[choice]` is made current and bought; an empty supported list raises; a supported configured coin is set but not bought |
| `MultiStrategy.Bridge` | binance_trade_bot/strategies/multiple_coins_mongo_strategy.py:8-40 | the transaction for either binding of the settlement arguments: the strict gate, the aborts before the buy, the switch and raise when the settlement is not reached or fails, and on a settled rotation the new coin, the call's ledger and the full trace |
| `MultiStrategy.TransactionThroughBridge` | binance_trade_bot/strategies/multiple_coins_mongo_strategy.py:8-40 | same gate and aborts as the ETH strategy; after a successful buy the coin is switched, and the step raises on a zero fill price, a missing ticker price or a failing `execute_trx`, with the ledger untouched; it returns the result iff `execute_trx(from, to, quantity := ticker price, price_value := bought amount)` succeeds, the ledger is exactly that call's result, and the trace ends with the source's drop and the target's upsert |
| `MultiStrategy.TransactionKeepsOtherRecords` | binance_trade_bot/strategies/multiple_coins_mongo_strategy.py:33-35 | whatever the outcome, every document other than the source's and the target's keeps its presence and value |
| `MultiStrategy.TransactionKeepsEthRecords` | binance_trade_bot/strategies/multiple_coins_mongo_strategy.py:33-35 | whatever the outcome, no record under an `<COIN>ETH-last-buy-price` key changes |
| `MultiStrategy.TransactionThroughBridgeByName` | binance_trade_bot/strategies/multiple_coins_mongo_strategy.py:29-37 | corrected settlement: the ledger is `execute_trx` with `quantity := bought amount`, and the target's quantity grows by exactly the bought amount |
| `MultiStrategy.ByNameColdStart` | binance_trade_bot/strategies/multiple_coins_mongo_strategy.py:33-35 | corrected settlement on an empty history stores `(ticker price * 1.015, bought amount)` |
| `MultiStrategy.PositionalSwapCounterexample` | binance_trade_bot/strategies/multiple_coins_mongo_strategy.py:35 | buying 100 coins at ticker 0.0001 from an empty ledger stores `(101.5, 0.0001)` as written, against `(0.0001015, 100)` corrected |
| `MultiStrategy.CurrentSymbol` | binance_trade_bot/strategies/multiple_coins_mongo_strategy.py:50-54 | the current coin's symbol, or `""` when no coin is current |
| `MultiStrategy.Qualifies` | binance_trade_bot/strategies/multiple_coins_mongo_strategy.py:60-69 | a coin without a price never qualifies; the current coin qualifies whenever it has a price; any other coin qualifies iff `price * balance >= min_notional`, so equality qualifies |
| `MultiStrategy.Jumps` | binance_trade_bot/strategies/multiple_coins_mongo_strategy.py:56-79 | the reference scout trace: no more entries than coins, and every entry is a jump |
| `MultiStrategy.JumpsConcat` | binance_trade_bot/strategies/multiple_coins_mongo_strategy.py:56-79 | the jumps over a concatenation of coin lists are the jumps of each part, in order |
| `MultiStrategy.JumpsFromQualifying` | binance_trade_bot/strategies/multiple_coins_mongo_strategy.py:56-79 | every jump comes from a priced, qualifying coin, at that coin's price |
| `MultiStrategy.QualifyingCoinJumps` | binance_trade_bot/strategies/multiple_coins_mongo_strategy.py:64-79 | every qualifying coin produces its jump |
| `MultiStrategy.JumpsEmptyIff` | binance_trade_bot/strategies/multiple_coins_mongo_strategy.py:64-69 | there are no jumps exactly when no coin qualifies |
| `MultiStrategy.Scout` | binance_trade_bot/strategies/multiple_coins_mongo_strategy.py:43-82 | the trace is one jump per qualifying coin in `get_coins()` order, then the base class's `bridge_scout`, which is invoked iff no coin qualified |

## Behaviour worth knowing

- A coin that is not current, and whose value equals the minimum notional, qualifies in the multi-coin scout, because the code skips only values below it (`MultiStrategy.Qualifies`).
- The quote unit of the ledger keys is fixed in the code: `BTC` in `mongo_db.py` and `ETH` in the ETH strategy. The two key families never collide (`EthStrategy.EthKeyIsNotBtcKey`, `MultiStrategy.TransactionKeepsEthRecords`).
- The fee multiplier is the constant 1.015 (`Ledger.FeeMultiplier`).
- The ETH strategy never drops the source coin's record. It only overwrites the target's record (`EthStrategy.TransactionOverwritesWithoutAveraging`). The multi-coin strategy drops the source's record through `execute_trx` (`Ledger.ExecuteTrx`).
- A symbol with no record reads as `(0, 0)` (`Ledger.Lookup`).
- A zero total quantity in `execute_trx` raises `ZeroDivisionError` before anything is written. This is the `DivisionByZero` fault of `Ledger.ExecuteTrx`.

## Left out

- MongoDB client and connection setup (`mongo_db.py:13-20`) is I/O. The `InvalidName` branch of the ETH strategy's record write is modelled as the `dbAvailable` input: when it is false, nothing is written.
- The trader base class, which provides `mongo_manager`, is not part of this model. The ETH strategy indexes it like a client (`mongo_manager["binance-bot"]`, default_mongo_eth_strategy.py:16). The multi-coin strategy calls `execute_trx` on it (multiple_coins_mongo_strategy.py:35). `MongoBinanceTraderManager` defines no indexing, so one object could not serve both. The model assumes each strategy's access works as that strategy expects, and `InvalidName` is the only database failure modelled.
- Exchange gateway calls (`get_ticker_price`, `get_currency_balance`, `get_min_notional`, `sell_alt`, `buy_alt`) are foreign calls. Their answers are inputs (`BridgeAnswers`, `CoinView`, plain parameters), and only the calls that change the world appear in the trace.
- The trader base class is not part of this model. That covers `_jump_to_best_coin`, `update_trade_threshold`, its own `bridge_scout`, `initialize`, and the database's `get_coins`, `get_current_coin` and `set_current_coin`. They appear as the current-coin field of the state and as uninterpreted effects in the trace. The ETH strategy's `initialize` (lines 10-12) only chains to the base class, then calls `initialize_current_coin`.
- `print`, `datetime.now()` and logging are console and log output.
- `random.choice` is the `choice` index, which may name any element of a non-empty supported list. An empty list raises `EmptyChoice`.
- Python float rounding is not modelled. Exact `real` arithmetic stands in, with the constant 1.015.
- The balance is taken to be a number, never `None`. Its truthiness is modelled as "nonzero".
- `CURRENT_COIN_SYMBOL` is modelled as a string, with "" meaning "not configured". A `None` value would choose a random coin without buying it; the configuration module is not part of this model.
- A missing current coin in the ETH `scout` and `bridge_scout` is modelled as a `NoneOperand` fault. This assumes that `None + coin` and `None.symbol` raise.
- MongoDB can hold several documents with the same key. The map holds one per key. Within this code's own sequential writes they cannot differ, because an upsert's filter key equals the key it writes (`Ledger.SetKey`, `Ledger.Upsert`). Other writers to the shared `trailing-trade-symbols` collection, and upserts racing without a unique index, could create duplicates. That is outside this model.
- MultiStrategy.TransactionThroughBridgeByName: with no ticker price for the target, the corrected call raises `NoneOperand`. Python would raise only when the source has a zero stored price, because that is the only branch that reads `price_value`. The corrected member keeps the as-written behaviour here rather than guess the intended handling.

## Findings

| source | as written | input that shows it | evidently intended | confidence | as-written member | corrected member |
|---|---|---|---|---|---|---|
| binance_trade_bot/strategies/multiple_coins_mongo_strategy.py:35 | `execute_trx(from, to, price_value, qnty)` is called positionally, but the parameter order is `(from_symbol, to_symbol, quantity, price_value)` (`mongo_db.py:46`), so the ticker price lands in `quantity` | empty ledger; buy of 100 XRP (fill price 0.5, quote quantity 50), XRPBTC ticker 0.0001: the record becomes price 101.5, quantity 0.0001 | bind by name, so the record becomes price 0.0001015 (ticker times 1.015), quantity 100 | high; not executed | `MultiStrategy.PositionalSwapCounterexample` (of `MultiStrategy.TransactionThroughBridge`) | `MultiStrategy.TransactionThroughBridgeByName` |
