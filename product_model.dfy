/**
 * The Product model's stock primitives. An Eloquent model object stands
 * for one row of the products table and `increment`/`decrement` write that
 * row, so each method here acts on the row `db.products[id]`.
 */
module ProductModel {
  import opened Schema
  import Ledger

  /** `isAvailable`: some stock is left. */
  predicate IsAvailable(p: Product)
  {
    p.stock > 0
  }

  /**
   * After the transaction controller records a sale, a product is still
   * available exactly when its stock exceeded the quantity sold.
   */
  lemma AvailableAfterSale(products: map<nat, Product>, items: seq<Ledger.CartLine>, id: nat)
    requires Ledger.AllKnown(products, items) && id in products
    ensures IsAvailable(Ledger.Sell(products, items)[id]) <==> products[id].stock > Ledger.QtyOf(items, id)
  {
    Ledger.SellAt(products, items, id);
  }

  /**
   * After `update` credits back a transaction's lines, a product is
   * available exactly when its stock plus the credited quantity is positive.
   */
  lemma AvailableAfterCreditBack(products: map<nat, Product>, lines: seq<LineItem>, id: nat)
    requires id in products
    ensures IsAvailable(Ledger.Restock(products, Ledger.Pairs(lines))[id])
            <==> products[id].stock + Ledger.QtyOf(Ledger.Pairs(lines), id) > 0
  {
    Ledger.RestockAt(products, Ledger.Pairs(lines), id);
  }

  /**
   * `decreaseStock`: sells `qty` units only if that many are in stock, and
   * reports whether it did. A successful call never leaves the stock negative.
   */
  method DecreaseStock(db: Database, id: nat, qty: int) returns (ok: bool)
    requires db.Valid() && id in db.products
    modifies db
    ensures db.Valid()
    ensures ok <==> old(db.products[id].stock) >= qty
    ensures ok ==> db.products == old(db.products)[id := old(db.products[id]).(stock := old(db.products[id].stock) - qty)]
    ensures !ok ==> db.products == old(db.products)
    ensures ok ==> db.products[id].stock >= 0
    ensures ok ==> (IsAvailable(db.products[id]) <==> old(db.products[id].stock) > qty)
    ensures db.customers == old(db.customers) && db.transactions == old(db.transactions)
    ensures db.items == old(db.items)
    ensures db.nextProductId == old(db.nextProductId) && db.nextCustomerId == old(db.nextCustomerId)
    ensures db.nextTransactionId == old(db.nextTransactionId)
  {
    var row := db.products[id];
    if row.stock >= qty {
      db.products := db.products[id := row.(stock := row.stock - qty)];
      ok := true;
    } else {
      ok := false;
    }
  }

  /** `increaseStock`: adds `qty` units unconditionally; nothing else changes. */
  method IncreaseStock(db: Database, id: nat, qty: int)
    requires db.Valid() && id in db.products
    modifies db
    ensures db.Valid()
    ensures db.products == old(db.products)[id := old(db.products[id]).(stock := old(db.products[id].stock) + qty)]
    ensures qty > 0 && old(db.products[id].stock) >= 0 ==> IsAvailable(db.products[id])
    ensures db.customers == old(db.customers) && db.transactions == old(db.transactions)
    ensures db.items == old(db.items)
    ensures db.nextProductId == old(db.nextProductId) && db.nextCustomerId == old(db.nextCustomerId)
    ensures db.nextTransactionId == old(db.nextTransactionId)
  {
    var row := db.products[id];
    db.products := db.products[id := row.(stock := row.stock + qty)];
  }

  /**
   * A restock of `qty` followed by a sale of `qty` succeeds, and restores the
   * row, exactly when the stock was not negative to begin with (a sale
   * recorded by the transaction controller can leave it negative).
   */
  method RestockThenSell(db: Database, id: nat, qty: int) returns (ok: bool)
    requires db.Valid() && id in db.products
    modifies db
    ensures db.Valid()
    ensures ok <==> old(db.products[id].stock) >= 0
    ensures ok ==> db.products == old(db.products)
    ensures !ok ==> db.products == old(db.products)[id := old(db.products[id]).(stock := old(db.products[id].stock) + qty)]
    ensures db.items == old(db.items) && db.transactions == old(db.transactions)
  {
    IncreaseStock(db, id, qty);
    ok := DecreaseStock(db, id, qty);
    if ok {
      assert db.products[id] == old(db.products[id]);
    }
  }
}
