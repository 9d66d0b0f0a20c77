/**
 * The cost-basis ledger kept in the `trailing-trade-symbols` collection
 * (binance_trade_bot/mongo_db.py). Every document is found by its "key"
 * field, so the collection is a map from that key to the document's
 * (lastBuyPrice, quantity) pair. Exact `real` arithmetic stands in for
 * Python floats.
 */
module Ledger {
  import opened Wrappers
  import opened Faults

  /** The quote unit baked into every key this module builds. */
  const TradingPair: string := "BTC"
  const KeySuffix: string := "-last-buy-price"
  /** The fee adjustment for a Coin A -> bridge -> Coin B round trip. */
  const FeeMultiplier: real := 1.015

  /**
   * One stored document. `lastBuyPrice` is optional because a writer may
   * store Python's `None` (JSON null) there.
   */
  datatype Entry = Entry(lastBuyPrice: Option<real>, quantity: real)

  /** The collection, indexed by each document's "key" field. */
  type Collection = map<string, Entry>

  /** What a lookup answers for a symbol that has no document. */
  const NoRecord: Entry := Entry(Some(0.0), 0.0)

  /**
   * The filter used to find a symbol's document (`get_query_object`):
   * the symbol, then the fixed text "BTC-last-buy-price".
   */
  function QueryKey(symbol: string): (k: string)
    ensures |k| == |symbol| + 18
    ensures k[..|symbol|] == symbol
    ensures k[|symbol|..] == "BTC-last-buy-price"
  {
    symbol + TradingPair + KeySuffix
  }

  /** The "key" value an upsert writes into the document; built separately from the filter. */
  function SetKey(symbol: string): (k: string)
    ensures k == QueryKey(symbol)
  {
    symbol + TradingPair + KeySuffix
  }

  /**
   * `update_one({"key": filterKey}, {"$set": {"key": setKey, ...}}, upsert=True)`:
   * the matching document, or a new one, ends up holding `e` under `setKey`.
   */
  function UpdateOne(c: Collection, filterKey: string, setKey: string, e: Entry): (r: Collection)
    ensures setKey in r && r[setKey] == e
    ensures forall k :: k != filterKey && k != setKey ==> (k in r <==> k in c)
    ensures forall k :: k != filterKey && k != setKey && k in c ==> r[k] == c[k]
    ensures filterKey == setKey ==> r == c[setKey := e]
    ensures filterKey != setKey ==> filterKey !in r
  {
    (c - {filterKey})[setKey := e]
  }

  /** `_get_last_buy_price_quantity`: the stored pair, or (0, 0) when there is none. */
  function Lookup(c: Collection, symbol: string): (r: Entry)
    ensures QueryKey(symbol) !in c ==> r == NoRecord
    ensures QueryKey(symbol) in c ==> r == c[QueryKey(symbol)]
  {
    var k := QueryKey(symbol);
    if k in c then c[k] else NoRecord
  }

  /** `_drop_last_buy_price`: delete the symbol's document, if any. */
  function Drop(c: Collection, symbol: string): (r: Collection)
    ensures Lookup(r, symbol) == NoRecord
    ensures QueryKey(symbol) !in c ==> r == c
    ensures r.Keys == c.Keys - {QueryKey(symbol)}
    ensures forall k :: k in c && k != QueryKey(symbol) ==> k in r && r[k] == c[k]
  {
    c - {QueryKey(symbol)}
  }

  /** `_update_mongodb_last_buy_price`: find-or-replace the symbol's document. */
  function Upsert(c: Collection, symbol: string, buyPrice: real, quantity: real): (r: Collection)
    ensures Lookup(r, symbol) == Entry(Some(buyPrice), quantity)
    ensures r.Keys == c.Keys + {QueryKey(symbol)}
    ensures forall k :: k in c && k != QueryKey(symbol) ==> k in r && r[k] == c[k]
  {
    UpdateOne(c, QueryKey(symbol), SetKey(symbol), Entry(Some(buyPrice), quantity))
  }

  /** Distinct symbols have distinct keys. */
  lemma {:induction false} QueryKeyInjective(s: string, t: string)
    ensures QueryKey(s) == QueryKey(t) ==> s == t
  {
    var tail := TradingPair + KeySuffix;
    if QueryKey(s) != QueryKey(t) {
      return;
    }
    assert QueryKey(s) == s + tail;
    assert QueryKey(t) == t + tail;
    assert |s| == |t|;
    assert s == (s + tail)[..|s|];
    assert t == (t + tail)[..|t|];
  }

  /** An upsert for one symbol leaves every other symbol's record as it was. */
  lemma UpsertKeepsOthers(c: Collection, symbol: string, buyPrice: real, quantity: real, other: string)
    requires other != symbol
    ensures Lookup(Upsert(c, symbol, buyPrice, quantity), other) == Lookup(c, other)
  {
    QueryKeyInjective(other, symbol);
  }

  /** A drop of one symbol leaves every other symbol's record as it was. */
  lemma DropKeepsOthers(c: Collection, symbol: string, other: string)
    requires other != symbol
    ensures Lookup(Drop(c, symbol), other) == Lookup(c, other)
  {
    QueryKeyInjective(other, symbol);
  }

  /** Repeating an upsert leaves the same collection as doing it once. */
  lemma UpsertIdempotent(c: Collection, symbol: string, buyPrice: real, quantity: real)
    ensures Upsert(Upsert(c, symbol, buyPrice, quantity), symbol, buyPrice, quantity)
         == Upsert(c, symbol, buyPrice, quantity)
  {
  }

  /** What a record's whole quantity is worth at its recorded price. */
  function Worth(e: Entry): real
    requires e.lastBuyPrice.Some?
  {
    e.lastBuyPrice.value * e.quantity
  }

  /**
   * The amount `execute_trx` charges to the new position: the price paid
   * for the bought quantity when the source has no cost basis (price 0),
   * otherwise the source's own recorded worth.
   */
  function TotalSpent(source: Entry, quantity: real, priceValue: real): real
    requires source.lastBuyPrice.Some?
  {
    if source.lastBuyPrice.value == 0.0 then priceValue * quantity else Worth(source)
  }

  /** The fee-adjusted average price of a combined position. */
  function AveragePrice(totalExists: real, totalSpent: real, totalQuantity: real): real
    requires totalQuantity != 0.0
  {
    (totalExists + totalSpent) * FeeMultiplier / totalQuantity
  }

  /**
   * `execute_trx(from_symbol, to_symbol, quantity, price_value)`: fold the
   * source's cost into the target's record with the fee multiplier, drop
   * the source's record and upsert the target's. A null stored price or a
   * zero total quantity raises before anything is written.
   */
  function ExecuteTrx(c: Collection, fromSymbol: string, toSymbol: string,
                      quantity: real, priceValue: real): (r: Result<Collection, Fault>)
    ensures r.Failure? <==>
      || Lookup(c, fromSymbol).lastBuyPrice.None?
      || Lookup(c, toSymbol).lastBuyPrice.None?
      || quantity + Lookup(c, toSymbol).quantity == 0.0
    // a null stored price raises `TypeError`; otherwise a zero total raises `ZeroDivisionError`
    ensures r.Failure? ==>
      r.error == (if Lookup(c, fromSymbol).lastBuyPrice.None? || Lookup(c, toSymbol).lastBuyPrice.None?
                  then NoneOperand else DivisionByZero)
    ensures r.Success? && fromSymbol != toSymbol ==> QueryKey(fromSymbol) !in r.value
    ensures r.Success? ==> Lookup(r.value, toSymbol).quantity == quantity + Lookup(c, toSymbol).quantity
    // only the source's and the target's documents are touched
    ensures r.Success? ==> r.value.Keys == c.Keys - {QueryKey(fromSymbol)} + {QueryKey(toSymbol)}
    ensures r.Success? ==> forall k :: k in c && k != QueryKey(fromSymbol) && k != QueryKey(toSymbol) ==>
      k in r.value && r.value[k] == c[k]
  {
    var source := Lookup(c, fromSymbol);
    if source.lastBuyPrice.None? then Failure(NoneOperand)
    else
      var totalSpent := TotalSpent(source, quantity, priceValue);
      var target := Lookup(c, toSymbol);
      if target.lastBuyPrice.None? then Failure(NoneOperand)
      else
        var totalQuantity := quantity + target.quantity;
        if totalQuantity == 0.0 then Failure(DivisionByZero)
        else
          QueryKeyInjective(fromSymbol, toSymbol);
          var avgPrice := AveragePrice(Worth(target), totalSpent, totalQuantity);
          Success(Upsert(Drop(c, fromSymbol), toSymbol, avgPrice, totalQuantity))
  }

  /** A successful `execute_trx` drops the source, then upserts the target with the average. */
  lemma ExecuteTrxShape(c: Collection, fromSymbol: string, toSymbol: string,
                        quantity: real, priceValue: real)
    requires ExecuteTrx(c, fromSymbol, toSymbol, quantity, priceValue).Success?
    ensures var source := Lookup(c, fromSymbol);
            var target := Lookup(c, toSymbol);
            var total := quantity + target.quantity;
            && source.lastBuyPrice.Some? && target.lastBuyPrice.Some? && total != 0.0
            && ExecuteTrx(c, fromSymbol, toSymbol, quantity, priceValue)
               == Success(Upsert(Drop(c, fromSymbol), toSymbol,
                                 AveragePrice(Worth(target), TotalSpent(source, quantity, priceValue), total),
                                 total))
  {
  }

  /**
   * The target's new record prices the whole new quantity at the
   * fee-adjusted sum of what it already held and what was spent.
   */
  lemma ExecuteTrxTargetRecord(c: Collection, fromSymbol: string, toSymbol: string,
                               quantity: real, priceValue: real)
    requires ExecuteTrx(c, fromSymbol, toSymbol, quantity, priceValue).Success?
    ensures var source := Lookup(c, fromSymbol);
            var target := Lookup(c, toSymbol);
            var e := Lookup(ExecuteTrx(c, fromSymbol, toSymbol, quantity, priceValue).value, toSymbol);
            && e.lastBuyPrice.Some?
            && e.quantity == quantity + target.quantity
            && Worth(e) == (Worth(target) + TotalSpent(source, quantity, priceValue)) * FeeMultiplier
  {
    ExecuteTrxShape(c, fromSymbol, toSymbol, quantity, priceValue);
    var source := Lookup(c, fromSymbol);
    var target := Lookup(c, toSymbol);
    AveragePriceRestoresCost(Worth(target), TotalSpent(source, quantity, priceValue), quantity + target.quantity);
  }

  /** Every symbol other than the source and the target keeps its record. */
  lemma ExecuteTrxKeepsOthers(c: Collection, fromSymbol: string, toSymbol: string,
                              quantity: real, priceValue: real, other: string)
    requires ExecuteTrx(c, fromSymbol, toSymbol, quantity, priceValue).Success?
    requires other != fromSymbol && other != toSymbol
    ensures Lookup(ExecuteTrx(c, fromSymbol, toSymbol, quantity, priceValue).value, other) == Lookup(c, other)
  {
    ExecuteTrxShape(c, fromSymbol, toSymbol, quantity, priceValue);
    var source := Lookup(c, fromSymbol);
    var target := Lookup(c, toSymbol);
    var total := quantity + target.quantity;
    var avg := AveragePrice(Worth(target), TotalSpent(source, quantity, priceValue), total);
    DropKeepsOthers(c, fromSymbol, other);
    UpsertKeepsOthers(Drop(c, fromSymbol), toSymbol, avg, total, other);
  }

  /**
   * With a nonzero recorded source price, the amount charged to the new
   * position is the source's recorded price times its recorded quantity.
   */
  lemma ExecuteTrxChargesSourceWorth(c: Collection, fromSymbol: string, toSymbol: string,
                                     quantity: real, priceValue: real)
    requires ExecuteTrx(c, fromSymbol, toSymbol, quantity, priceValue).Success?
    requires Lookup(c, fromSymbol).lastBuyPrice != Some(0.0)
    ensures var src := Lookup(c, fromSymbol);
            var tgt := Lookup(c, toSymbol);
            var e := Lookup(ExecuteTrx(c, fromSymbol, toSymbol, quantity, priceValue).value, toSymbol);
            && e.lastBuyPrice.Some?
            && e.lastBuyPrice.value * e.quantity
               == (tgt.lastBuyPrice.value * tgt.quantity + src.lastBuyPrice.value * src.quantity) * FeeMultiplier
  {
    ExecuteTrxTargetRecord(c, fromSymbol, toSymbol, quantity, priceValue);
  }

  /**
   * With a recorded source price of 0 (no cost basis, or no record), the
   * amount charged is `priceValue` times the moved `quantity`.
   */
  lemma ExecuteTrxChargesPaidPrice(c: Collection, fromSymbol: string, toSymbol: string,
                                   quantity: real, priceValue: real)
    requires ExecuteTrx(c, fromSymbol, toSymbol, quantity, priceValue).Success?
    requires Lookup(c, fromSymbol).lastBuyPrice == Some(0.0)
    ensures var tgt := Lookup(c, toSymbol);
            var e := Lookup(ExecuteTrx(c, fromSymbol, toSymbol, quantity, priceValue).value, toSymbol);
            && e.lastBuyPrice.Some?
            && e.lastBuyPrice.value * e.quantity
               == (tgt.lastBuyPrice.value * tgt.quantity + priceValue * quantity) * FeeMultiplier
  {
    ExecuteTrxTargetRecord(c, fromSymbol, toSymbol, quantity, priceValue);
  }

  /**
   * When the source has a nonzero recorded price, the amount spent is that
   * record's worth and `priceValue` has no influence on the outcome.
   */
  lemma ExecuteTrxIgnoresPriceWhenSourceKnown(c: Collection, fromSymbol: string, toSymbol: string,
                                              quantity: real, priceValue: real, otherPrice: real)
    requires Lookup(c, fromSymbol).lastBuyPrice.Some?
    requires Lookup(c, fromSymbol).lastBuyPrice.value != 0.0
    ensures ExecuteTrx(c, fromSymbol, toSymbol, quantity, priceValue)
         == ExecuteTrx(c, fromSymbol, toSymbol, quantity, otherPrice)
  {
  }

  /**
   * Cold start: with no record for either symbol, the stored average is the
   * paid price times the fee multiplier and the quantity is the bought one.
   */
  lemma ExecuteTrxColdStart(c: Collection, fromSymbol: string, toSymbol: string,
                            quantity: real, priceValue: real)
    requires QueryKey(fromSymbol) !in c && QueryKey(toSymbol) !in c
    requires quantity > 0.0
    ensures ExecuteTrx(c, fromSymbol, toSymbol, quantity, priceValue).Success?
    ensures Lookup(ExecuteTrx(c, fromSymbol, toSymbol, quantity, priceValue).value, toSymbol)
         == Entry(Some(priceValue * FeeMultiplier), quantity)
  {
    assert Worth(NoRecord) == 0.0;
    assert TotalSpent(NoRecord, quantity, priceValue) == priceValue * quantity;
    ExecuteTrxShape(c, fromSymbol, toSymbol, quantity, priceValue);
    AveragePriceOfSingleLot(priceValue, quantity);
  }

  /** A record is well formed when its price is known and both fields are non-negative. */
  predicate NonNegative(e: Entry)
  {
    e.lastBuyPrice.Some? && e.lastBuyPrice.value >= 0.0 && e.quantity >= 0.0
  }

  /** Non-negative inputs give a non-negative average price and quantity. */
  lemma ExecuteTrxNonNegative(c: Collection, fromSymbol: string, toSymbol: string,
                              quantity: real, priceValue: real)
    requires NonNegative(Lookup(c, fromSymbol)) && NonNegative(Lookup(c, toSymbol))
    requires quantity > 0.0 && priceValue >= 0.0
    ensures ExecuteTrx(c, fromSymbol, toSymbol, quantity, priceValue).Success?
    ensures NonNegative(Lookup(ExecuteTrx(c, fromSymbol, toSymbol, quantity, priceValue).value, toSymbol))
  {
    var source := Lookup(c, fromSymbol);
    var target := Lookup(c, toSymbol);
    ExecuteTrxShape(c, fromSymbol, toSymbol, quantity, priceValue);
    var spent := TotalSpent(source, quantity, priceValue);
    assert spent >= 0.0 by {
      if source.lastBuyPrice.value == 0.0 {
        MulNonNegative(priceValue, quantity);
      } else {
        MulNonNegative(source.lastBuyPrice.value, source.quantity);
      }
    }
    MulNonNegative(target.lastBuyPrice.value, target.quantity);
    AveragePriceNonNegative(Worth(target), spent, quantity + target.quantity);
  }

  lemma AveragePriceRestoresCost(totalExists: real, totalSpent: real, totalQuantity: real)
    requires totalQuantity != 0.0
    ensures AveragePrice(totalExists, totalSpent, totalQuantity) * totalQuantity
         == (totalExists + totalSpent) * FeeMultiplier
  {
  }

  lemma AveragePriceOfSingleLot(price: real, quantity: real)
    requires quantity > 0.0
    ensures AveragePrice(0.0, price * quantity, quantity + 0.0) == price * FeeMultiplier
  {
    var cost := (0.0 + price * quantity) * FeeMultiplier;
    assert cost == (price * FeeMultiplier) * quantity;
  }

  lemma AveragePriceNonNegative(totalExists: real, totalSpent: real, totalQuantity: real)
    requires totalExists >= 0.0 && totalSpent >= 0.0 && totalQuantity > 0.0
    ensures AveragePrice(totalExists, totalSpent, totalQuantity) >= 0.0
  {
    MulNonNegative(totalExists + totalSpent, FeeMultiplier);
  }

  lemma MulNonNegative(a: real, b: real)
    requires a >= 0.0 && b >= 0.0
    ensures a * b >= 0.0
  {
  }
}
