/**
 * The transaction controller's `store` and `update`: validate a cart, price
 * it, write the header and one line item per cart entry, and move stock.
 * Stock is decremented without any sufficiency check, so it may go negative.
 */
module Ledger {
  import opened Wrappers
  import opened Schema
  import Pricing

  /** One cart entry of a request: `items.*.product_id` and `items.*.qty`. */
  datatype CartLine = CartLine(productId: nat, qty: int)

  /** The request body of `POST /transactions` and `PUT /transactions/{id}`. */
  datatype Request = Request(customerId: Option<nat>, items: seq<CartLine>)

  /** A field the validator reports: `customer_id`, `items`, `items.i.product_id`, `items.i.qty`. */
  datatype FieldError =
    | CustomerField
    | ItemsField
    | ItemProductField(index: nat)
    | ItemQtyField(index: nat)

  datatype LedgerError = NotFound | Invalid(errors: seq<FieldError>)

  /** Every entry names an existing product. */
  predicate AllKnown(products: map<nat, Product>, items: seq<CartLine>)
  {
    forall k :: 0 <= k < |items| ==> items[k].productId in products
  }

  /** An entry passing `items.*.product_id` (`required|exists`) and `items.*.qty` (`integer|min:1`). */
  predicate ItemOk(products: map<nat, Product>, line: CartLine)
  {
    line.productId in products && line.qty >= 1
  }

  /** A request the validator accepts. */
  predicate ValidRequest(products: map<nat, Product>, customers: map<nat, Customer>, req: Request)
  {
    && (req.customerId.Some? ==> req.customerId.value in customers)
    && |req.items| >= 1
    && forall k :: 0 <= k < |req.items| ==> ItemOk(products, req.items[k])
  }

  /** The per-entry errors of entries `k..`, reported with their indices. */
  function ItemErrors(products: map<nat, Product>, items: seq<CartLine>, k: nat): (r: seq<FieldError>)
    requires k <= |items|
    ensures forall j :: k <= j < |items| ==> (ItemProductField(j) in r <==> items[j].productId !in products)
    ensures forall j :: k <= j < |items| ==> (ItemQtyField(j) in r <==> items[j].qty < 1)
    ensures forall e :: e in r ==> (e.ItemProductField? || e.ItemQtyField?) && k <= e.index < |items|
    ensures r == [] <==> forall j :: k <= j < |items| ==> ItemOk(products, items[j])
    decreases |items| - k
  {
    if k == |items| then []
    else
      (if items[k].productId in products then [] else [ItemProductField(k)])
      + (if items[k].qty >= 1 then [] else [ItemQtyField(k)])
      + ItemErrors(products, items, k + 1)
  }

  /** The validation of TransactionController.php:60-65 and 120-125: every failing field. */
  function RequestErrors(products: map<nat, Product>, customers: map<nat, Customer>, req: Request): (r: seq<FieldError>)
    ensures r == [] <==> ValidRequest(products, customers, req)
    ensures CustomerField in r <==> req.customerId.Some? && req.customerId.value !in customers
    ensures ItemsField in r <==> req.items == []
    ensures forall j :: 0 <= j < |req.items| ==>
              (ItemProductField(j) in r <==> req.items[j].productId !in products)
    ensures forall j :: 0 <= j < |req.items| ==> (ItemQtyField(j) in r <==> req.items[j].qty < 1)
  {
    (if req.customerId.Some? && req.customerId.value !in customers then [CustomerField] else [])
    + (if req.items == [] then [ItemsField] else [])
    + ItemErrors(products, req.items, 0)
  }

  /** Σ price × qty over the entries, at the products' current prices. */
  function Subtotal(products: map<nat, Product>, items: seq<CartLine>): (s: real)
    requires AllKnown(products, items)
    ensures (forall k :: 0 <= k < |items| ==>
               products[items[k].productId].price >= 0.0 && items[k].qty >= 0) ==> s >= 0.0
  {
    if items == [] then 0.0
    else
      var last := items[|items| - 1];
      Subtotal(products, items[..|items| - 1]) + Amount(products[last.productId].price, last.qty)
  }

  /** The total quantity of product `id` over the entries, counting repeats. */
  function QtyOf(items: seq<CartLine>, id: nat): (q: int)
    ensures (forall k :: 0 <= k < |items| ==> items[k].productId != id) ==> q == 0
    ensures (forall k :: 0 <= k < |items| ==> items[k].qty >= 0) ==> q >= 0
  {
    if items == [] then 0
    else
      var last := items[|items| - 1];
      QtyOf(items[..|items| - 1], id) + (if last.productId == id then last.qty else 0)
  }

  /** The line items written for the entries of transaction `t`, at the products' current prices. */
  function Lines(t: nat, products: map<nat, Product>, items: seq<CartLine>): (r: seq<LineItem>)
    requires AllKnown(products, items)
    ensures |r| == |items|
  {
    if items == [] then []
    else
      var last := items[|items| - 1];
      var price := products[last.productId].price;
      Lines(t, products, items[..|items| - 1]) + [LineItem(t, last.productId, last.qty, price, Amount(price, last.qty))]
  }

  /** The (product, quantity) pairs of some line items. */
  function Pairs(lines: seq<LineItem>): (r: seq<CartLine>)
    ensures |r| == |lines|
    ensures forall k :: 0 <= k < |lines| ==> r[k] == CartLine(lines[k].productId, lines[k].qty)
  {
    if lines == [] then []
    else Pairs(lines[..|lines| - 1]) + [CartLine(lines[|lines| - 1].productId, lines[|lines| - 1].qty)]
  }

  /** The product table after `decrement('stock', qty)` for each entry in turn. */
  function Sell(products: map<nat, Product>, items: seq<CartLine>): (r: map<nat, Product>)
    requires AllKnown(products, items)
    ensures r.Keys == products.Keys
  {
    if items == [] then products
    else
      var last := items[|items| - 1];
      var p := Sell(products, items[..|items| - 1]);
      p[last.productId := p[last.productId].(stock := p[last.productId].stock - last.qty)]
  }

  /** The product table after `increment('stock', qty)` for each entry whose product still exists. */
  function Restock(products: map<nat, Product>, items: seq<CartLine>): (r: map<nat, Product>)
    ensures r.Keys == products.Keys
  {
    if items == [] then products
    else
      var last := items[|items| - 1];
      var p := Restock(products, items[..|items| - 1]);
      if last.productId in p then
        p[last.productId := p[last.productId].(stock := p[last.productId].stock + last.qty)]
      else p
  }

  /** The header written for a sale with this subtotal. */
  function Header(userId: nat, customerId: Option<nat>, subtotal: real): Transaction
  {
    Transaction(userId, customerId, subtotal, Pricing.Discount(subtotal), Pricing.Total(subtotal))
  }

  /** Two product tables with the same rows up to stock. */
  predicate SamePrices(p: map<nat, Product>, q: map<nat, Product>)
  {
    p.Keys == q.Keys && forall id :: id in p ==> p[id].price == q[id].price
  }

  // ---------------------------------------------------------------------
  // Properties of the specification functions

  /** Line `k` records entry `k` with the product's price and the matching subtotal. */
  lemma {:induction false} LinesAt(t: nat, products: map<nat, Product>, items: seq<CartLine>, k: nat)
    requires AllKnown(products, items) && k < |items|
    ensures Lines(t, products, items)[k]
            == LineItem(t, items[k].productId, items[k].qty, products[items[k].productId].price,
                        Amount(products[items[k].productId].price, items[k].qty))
  {
    if k < |items| - 1 {
      LinesAt(t, products, items[..|items| - 1], k);
    }
  }

  /** After the sale each product's stock is down by the total quantity of its entries; nothing else changes. */
  lemma {:induction false} SellAt(products: map<nat, Product>, items: seq<CartLine>, id: nat)
    requires AllKnown(products, items) && id in products
    ensures Sell(products, items)[id] == products[id].(stock := products[id].stock - QtyOf(items, id))
  {
    if items != [] {
      SellAt(products, items[..|items| - 1], id);
    }
  }

  /** After the credit-back each product's stock is up by the total quantity of its lines. */
  lemma {:induction false} RestockAt(products: map<nat, Product>, items: seq<CartLine>, id: nat)
    requires id in products
    ensures Restock(products, items)[id] == products[id].(stock := products[id].stock + QtyOf(items, id))
  {
    if items != [] {
      RestockAt(products, items[..|items| - 1], id);
    }
  }

  /** Selling changes stock only. */
  lemma SellKeepsPrices(products: map<nat, Product>, items: seq<CartLine>)
    requires AllKnown(products, items)
    ensures SamePrices(products, Sell(products, items))
  {
    forall id | id in products ensures products[id].price == Sell(products, items)[id].price {
      SellAt(products, items, id);
    }
  }

  /** Crediting back changes stock only. */
  lemma RestockKeepsPrices(products: map<nat, Product>, items: seq<CartLine>)
    ensures SamePrices(products, Restock(products, items))
  {
    forall id | id in products ensures products[id].price == Restock(products, items)[id].price {
      RestockAt(products, items, id);
    }
  }

  /** The header subtotal is the sum of the line subtotals. */
  lemma {:induction false} LinesTotalIsSubtotal(t: nat, products: map<nat, Product>, items: seq<CartLine>)
    requires AllKnown(products, items)
    ensures LinesTotal(Lines(t, products, items)) == Subtotal(products, items)
  {
    if items != [] {
      var init := items[..|items| - 1];
      LinesTotalIsSubtotal(t, products, init);
      var ls := Lines(t, products, items);
      assert ls[..|ls| - 1] == Lines(t, products, init);
    }
  }

  /** The stored lines record exactly the submitted (product, qty) pairs, in order. */
  lemma PairsOfLines(t: nat, products: map<nat, Product>, items: seq<CartLine>)
    requires AllKnown(products, items)
    ensures Pairs(Lines(t, products, items)) == items
  {
    var ls := Lines(t, products, items);
    forall k | 0 <= k < |items| ensures Pairs(ls)[k] == items[k] {
      LinesAt(t, products, items, k);
    }
  }

  /** Lines and subtotal depend on prices only, not on stock. */
  lemma {:induction false} PricesOnly(t: nat, p: map<nat, Product>, q: map<nat, Product>, items: seq<CartLine>)
    requires SamePrices(p, q) && AllKnown(p, items)
    ensures AllKnown(q, items)
    ensures Lines(t, p, items) == Lines(t, q, items)
    ensures Subtotal(p, items) == Subtotal(q, items)
  {
    if items != [] {
      PricesOnly(t, p, q, items[..|items| - 1]);
    }
  }

  /** A transaction's own lines are the ones `Lines` wrote for it; no other transaction owns any. */
  lemma {:induction false} OwnedByLines(t: nat, products: map<nat, Product>, items: seq<CartLine>, u: nat)
    requires AllKnown(products, items)
    ensures OwnedBy(Lines(t, products, items), u) == if u == t then Lines(t, products, items) else []
  {
    if items != [] {
      var init := items[..|items| - 1];
      var ls := Lines(t, products, items);
      assert ls[..|ls| - 1] == Lines(t, products, init);
      OwnedByLines(t, products, init, u);
    }
  }

  /** A transaction id that no row refers to owns no rows. */
  lemma {:induction false} OwnedByNone(items: seq<LineItem>, t: nat)
    requires forall k :: 0 <= k < |items| ==> items[k].transactionId != t
    ensures OwnedBy(items, t) == []
  {
    if items != [] {
      OwnedByNone(items[..|items| - 1], t);
    }
  }

  /** Crediting back a cart and selling it again leaves every row as it was. */
  lemma ReapplyKeepsStock(products: map<nat, Product>, items: seq<CartLine>)
    requires AllKnown(products, items)
    ensures Sell(Restock(products, items), items) == products
  {
    var r := Restock(products, items);
    var s := Sell(r, items);
    forall id | id in products ensures s[id] == products[id] {
      RestockAt(products, items, id);
      SellAt(r, items, id);
    }
  }

  /** An update from one cart `i1` to `i2` and back to `i1` restores every row. */
  lemma UpdateRoundTrip(products: map<nat, Product>, i1: seq<CartLine>, i2: seq<CartLine>)
    requires AllKnown(products, i1) && AllKnown(products, i2)
    ensures AllKnown(Sell(Restock(products, i1), i2), i1)
    ensures Sell(Restock(Sell(Restock(products, i1), i2), i2), i1) == products
  {
    var r1 := Restock(products, i1);
    var p1 := Sell(r1, i2);
    var r2 := Restock(p1, i2);
    var p2 := Sell(r2, i1);
    forall id | id in products ensures p2[id] == products[id] {
      RestockAt(products, i1, id);
      SellAt(r1, i2, id);
      RestockAt(p1, i2, id);
      SellAt(r2, i1, id);
    }
  }

  /** With no sufficiency check a sale can drive stock below zero. */
  lemma OversellAllowed()
    ensures Sell(map[1 := Product("P-1", "Tea", 5000.0, 1)], [CartLine(1, 2)])[1].stock == -1
  {
  }

  /** Selling the same product in two entries decrements it by both quantities. */
  lemma RepeatedEntriesAccumulate(products: map<nat, Product>, id: nat, a: int, b: int)
    requires id in products
    ensures Sell(products, [CartLine(id, a), CartLine(id, b)])[id].stock == products[id].stock - a - b
  {
    SellAt(products, [CartLine(id, a), CartLine(id, b)], id);
    assert QtyOf([CartLine(id, a), CartLine(id, b)], id) == a + b by {
      assert [CartLine(id, a), CartLine(id, b)][..1] == [CartLine(id, a)];
    }
  }

  /** A recorded sale keeps the tables consistent. */
  lemma SaleKeepsConsistent(
    products: map<nat, Product>, customers: map<nat, Customer>,
    transactions: map<nat, Transaction>, items: seq<LineItem>,
    t: nat, userId: nat, req: Request)
    requires Consistent(products, customers, transactions, items)
    requires t !in transactions && ValidRequest(products, customers, req)
    ensures Consistent(
              Sell(products, req.items), customers,
              transactions[t := Header(userId, req.customerId, Subtotal(products, req.items))],
              items + Lines(t, products, req.items))
  {
    var lines := Lines(t, products, req.items);
    var ts := transactions[t := Header(userId, req.customerId, Subtotal(products, req.items))];
    var all := items + lines;
    forall k | 0 <= k < |lines|
      ensures lines[k].transactionId == t && lines[k].productId in products && WellFormedLine(lines[k])
    {
      LinesAt(t, products, req.items, k);
    }
    forall u | u in ts ensures Balanced(ts[u], OwnedBy(all, u)) {
      OwnedByAppend(items, lines, u);
      OwnedByLines(t, products, req.items, u);
      if u == t {
        assert forall k | 0 <= k < |items| :: items[k].transactionId != t;
        OwnedByNone(items, t);
        assert OwnedBy(all, t) == lines;
        LinesTotalIsSubtotal(t, products, req.items);
      } else {
        assert OwnedBy(all, u) == OwnedBy(items, u);
      }
    }
  }

  /** A recorded update keeps the tables consistent, whatever the new stock levels. */
  lemma UpdateKeepsConsistent(
    products: map<nat, Product>, restocked: map<nat, Product>, customers: map<nat, Customer>,
    transactions: map<nat, Transaction>, items: seq<LineItem>,
    t: nat, req: Request)
    requires Consistent(products, customers, transactions, items)
    requires restocked.Keys == products.Keys
    requires t in transactions && ValidRequest(products, customers, req)
    ensures Consistent(
              restocked, customers,
              transactions[t := Header(transactions[t].userId, req.customerId, Subtotal(products, req.items))],
              Without(items, t) + Lines(t, products, req.items))
  {
    UpdateReferential(products, restocked, customers, transactions, items, t, req);
    UpdateLedgered(products, transactions, items, t, req);
  }

  /** After an update every foreign key still resolves. */
  lemma UpdateReferential(
    products: map<nat, Product>, restocked: map<nat, Product>, customers: map<nat, Customer>,
    transactions: map<nat, Transaction>, items: seq<LineItem>,
    t: nat, req: Request)
    requires Referential(products, customers, transactions, items)
    requires forall k :: 0 <= k < |items| ==> WellFormedLine(items[k])
    requires restocked.Keys == products.Keys
    requires t in transactions && ValidRequest(products, customers, req)
    ensures Referential(
              restocked, customers,
              transactions[t := Header(transactions[t].userId, req.customerId, Subtotal(products, req.items))],
              Without(items, t) + Lines(t, products, req.items))
  {
    var ts := transactions[t := Header(transactions[t].userId, req.customerId, Subtotal(products, req.items))];
    var rest := Without(items, t);
    var lines := Lines(t, products, req.items);
    var all := rest + lines;
    WithoutKeepsRows(items, t, transactions, products);
    forall k | 0 <= k < |all| ensures all[k].transactionId in ts && all[k].productId in restocked {
      if k < |rest| {
        assert all[k] == rest[k];
      } else {
        assert all[k] == lines[k - |rest|];
        LinesAt(t, products, req.items, k - |rest|);
      }
    }
  }

  /** After an update every line is well formed and every header agrees with the lines it owns. */
  lemma UpdateLedgered(
    products: map<nat, Product>, transactions: map<nat, Transaction>, items: seq<LineItem>,
    t: nat, req: Request)
    requires Ledgered(transactions, items)
    requires forall k :: 0 <= k < |items| ==> items[k].transactionId in transactions && items[k].productId in products
    requires t in transactions && AllKnown(products, req.items)
    requires forall k :: 0 <= k < |req.items| ==> ItemOk(products, req.items[k])
    ensures Ledgered(
              transactions[t := Header(transactions[t].userId, req.customerId, Subtotal(products, req.items))],
              Without(items, t) + Lines(t, products, req.items))
  {
    var rest := Without(items, t);
    var lines := Lines(t, products, req.items);
    var all := rest + lines;
    WithoutKeepsRows(items, t, transactions, products);
    forall k | 0 <= k < |all| ensures WellFormedLine(all[k]) {
      if k < |rest| {
        assert all[k] == rest[k];
      } else {
        assert all[k] == lines[k - |rest|];
        LinesAt(t, products, req.items, k - |rest|);
      }
    }
    UpdateBalanced(products, transactions, items, t, req);
  }

  /** After an update every header still agrees with the lines it owns. */
  lemma UpdateBalanced(
    products: map<nat, Product>, transactions: map<nat, Transaction>, items: seq<LineItem>,
    t: nat, req: Request)
    requires forall u :: u in transactions ==> Balanced(transactions[u], OwnedBy(items, u))
    requires t in transactions && AllKnown(products, req.items)
    ensures var ts := transactions[t := Header(transactions[t].userId, req.customerId, Subtotal(products, req.items))];
            forall u :: u in ts ==> Balanced(ts[u], OwnedBy(Without(items, t) + Lines(t, products, req.items), u))
  {
    var ts := transactions[t := Header(transactions[t].userId, req.customerId, Subtotal(products, req.items))];
    var all := Without(items, t) + Lines(t, products, req.items);
    forall u | u in ts ensures Balanced(ts[u], OwnedBy(all, u)) {
      UpdatedOwnership(items, t, products, req.items, u);
      if u == t {
        LinesTotalIsSubtotal(t, products, req.items);
      }
    }
  }

  /** After an update, `t` owns exactly its new lines and every other transaction its old ones. */
  lemma UpdatedOwnership(items: seq<LineItem>, t: nat, products: map<nat, Product>, cart: seq<CartLine>, u: nat)
    requires AllKnown(products, cart)
    ensures OwnedBy(Without(items, t) + Lines(t, products, cart), u)
            == if u == t then Lines(t, products, cart) else OwnedBy(items, u)
  {
    OwnedByAppend(Without(items, t), Lines(t, products, cart), u);
    OwnedByLines(t, products, cart, u);
    OwnedByWithout(items, t, u);
  }

  /** The rows kept by a delete still resolve and stay well formed. */
  lemma {:induction false} WithoutKeepsRows(
    items: seq<LineItem>, t: nat, transactions: map<nat, Transaction>, products: map<nat, Product>)
    requires forall k :: 0 <= k < |items| ==>
               items[k].transactionId in transactions && items[k].productId in products
               && WellFormedLine(items[k])
    ensures forall k :: 0 <= k < |Without(items, t)| ==>
              Without(items, t)[k].transactionId in transactions && Without(items, t)[k].productId in products
              && WellFormedLine(Without(items, t)[k])
  {
    if items != [] {
      WithoutKeepsRows(items[..|items| - 1], t, transactions, products);
    }
  }

  /**
   * After crediting back `previous` and selling `items`, each product's stock
   * is up by its quantity in `previous` and down by its quantity in `items`;
   * when the two carts are the same, every row is as it was.
   */
  lemma UpdateStock(products: map<nat, Product>, previous: seq<CartLine>, items: seq<CartLine>)
    requires AllKnown(products, items)
    ensures AllKnown(Restock(products, previous), items)
    ensures forall id :: id in products ==>
              Sell(Restock(products, previous), items)[id]
              == products[id].(stock := products[id].stock + QtyOf(previous, id) - QtyOf(items, id))
    ensures previous == items ==> Sell(Restock(products, previous), items) == products
  {
    var r := Restock(products, previous);
    forall id | id in products
      ensures Sell(r, items)[id] == products[id].(stock := products[id].stock + QtyOf(previous, id) - QtyOf(items, id))
    {
      RestockAt(products, previous, id);
      SellAt(r, items, id);
    }
    if previous == items {
      ReapplyKeepsStock(products, items);
    }
  }

  // ---------------------------------------------------------------------
  // The controller's loops

  /** The pricing loop of TransactionController.php:67-71 and 139-143. */
  method PriceCart(products: map<nat, Product>, items: seq<CartLine>) returns (subtotal: real)
    requires AllKnown(products, items)
    ensures subtotal == Subtotal(products, items)
  {
    subtotal := 0.0;
    var i := 0;
    while i < |items|
      invariant 0 <= i <= |items|
      invariant subtotal == Subtotal(products, items[..i])
    {
      assert items[..i + 1][..i] == items[..i];
      subtotal := subtotal + Amount(products[items[i].productId].price, items[i].qty);
      i := i + 1;
    }
    assert items[..i] == items;
  }

  /** The write loop of TransactionController.php:90-101 and 163-174: one line item and one decrement per entry. */
  method RecordLines(db: Database, t: nat, items: seq<CartLine>)
    requires AllKnown(db.products, items)
    modifies db
    ensures db.items == old(db.items) + Lines(t, old(db.products), items)
    ensures db.products == Sell(old(db.products), items)
    ensures db.customers == old(db.customers) && db.transactions == old(db.transactions)
    ensures db.nextProductId == old(db.nextProductId) && db.nextCustomerId == old(db.nextCustomerId)
    ensures db.nextTransactionId == old(db.nextTransactionId)
  {
    var i := 0;
    while i < |items|
      invariant 0 <= i <= |items|
      invariant db.items == old(db.items) + Lines(t, old(db.products), items[..i])
      invariant db.products == Sell(old(db.products), items[..i])
      invariant db.customers == old(db.customers) && db.transactions == old(db.transactions)
      invariant db.nextProductId == old(db.nextProductId) && db.nextCustomerId == old(db.nextCustomerId)
      invariant db.nextTransactionId == old(db.nextTransactionId)
    {
      var line := items[i];
      SellAt(old(db.products), items[..i], line.productId);
      var product := db.products[line.productId];
      assert items[..i + 1][..i] == items[..i];
      db.items := db.items + [LineItem(t, line.productId, line.qty, product.price, Amount(product.price, line.qty))];
      db.products := db.products[line.productId := product.(stock := product.stock - line.qty)];
      i := i + 1;
    }
    assert items[..i] == items;
  }

  /** `store`: validate, price, write the header and its lines, decrement stock. */
  method Store(db: Database, userId: nat, req: Request) returns (r: Result<nat, LedgerError>)
    requires db.Valid()
    modifies db
    ensures db.Valid()
    ensures r.Failure? <==> !ValidRequest(old(db.products), old(db.customers), req)
    ensures r.Failure? ==>
              && r.error == Invalid(RequestErrors(old(db.products), old(db.customers), req))
              && unchanged(db)
    ensures r.Success? ==>
              var t := r.value;
              && t == old(db.nextTransactionId) && t !in old(db.transactions)
              && AllKnown(old(db.products), req.items)
              && db.transactions == old(db.transactions)[t := Header(userId, req.customerId, Subtotal(old(db.products), req.items))]
              && db.items == old(db.items) + Lines(t, old(db.products), req.items)
              && db.products.Keys == old(db.products).Keys
              && (forall id :: id in old(db.products) ==>
                    db.products[id] == old(db.products)[id].(stock := old(db.products)[id].stock - QtyOf(req.items, id)))
              && db.customers == old(db.customers)
              && db.nextTransactionId == old(db.nextTransactionId) + 1
              && db.nextProductId == old(db.nextProductId) && db.nextCustomerId == old(db.nextCustomerId)
  {
    var errors := RequestErrors(db.products, db.customers, req);
    if errors != [] {
      return Failure(Invalid(errors));
    }
    ghost var p0, t0, i0 := db.products, db.transactions, db.items;
    var subtotal := PriceCart(db.products, req.items);
    var t := db.nextTransactionId;
    db.transactions := db.transactions[t := Header(userId, req.customerId, subtotal)];
    db.nextTransactionId := db.nextTransactionId + 1;
    RecordLines(db, t, req.items);
    SaleKeepsConsistent(p0, db.customers, t0, i0, t, userId, req);
    forall id | id in p0 ensures db.products[id] == p0[id].(stock := p0[id].stock - QtyOf(req.items, id)) {
      SellAt(p0, req.items, id);
    }
    r := Success(t);
  }

  /** The restock loop of TransactionController.php:128-133. */
  method CreditBack(db: Database, lines: seq<LineItem>)
    modifies db
    ensures db.products == Restock(old(db.products), Pairs(lines))
    ensures db.items == old(db.items)
    ensures db.customers == old(db.customers) && db.transactions == old(db.transactions)
    ensures db.nextProductId == old(db.nextProductId) && db.nextCustomerId == old(db.nextCustomerId)
    ensures db.nextTransactionId == old(db.nextTransactionId)
  {
    var i := 0;
    while i < |lines|
      invariant 0 <= i <= |lines|
      invariant db.products == Restock(old(db.products), Pairs(lines[..i]))
      invariant db.items == old(db.items)
      invariant db.customers == old(db.customers) && db.transactions == old(db.transactions)
      invariant db.nextProductId == old(db.nextProductId) && db.nextCustomerId == old(db.nextCustomerId)
      invariant db.nextTransactionId == old(db.nextTransactionId)
    {
      var line := lines[i];
      ghost var ps := Pairs(lines[..i + 1]);
      assert lines[..i + 1][..i] == lines[..i];
      assert ps[..i] == Pairs(lines[..i]) && ps[i] == CartLine(line.productId, line.qty);
      if line.productId in db.products {
        var product := db.products[line.productId];
        db.products := db.products[line.productId := product.(stock := product.stock + line.qty)];
      }
      i := i + 1;
    }
    assert lines[..i] == lines;
  }

  /**
   * `update`: credit back the old lines, delete them, price the new entries,
   * rewrite the header and record the new lines.
   */
  method Update(db: Database, t: nat, req: Request) returns (r: Result<nat, LedgerError>)
    requires db.Valid()
    modifies db
    ensures db.Valid()
    ensures r.Failure? <==> t !in old(db.transactions) || !ValidRequest(old(db.products), old(db.customers), req)
    ensures r.Failure? ==> unchanged(db)
    ensures r.Failure? && t !in old(db.transactions) ==> r.error == NotFound
    ensures r.Failure? && t in old(db.transactions) ==>
              r.error == Invalid(RequestErrors(old(db.products), old(db.customers), req))
    ensures r.Success? ==>
              var previous := Pairs(OwnedBy(old(db.items), t));
              && r.value == t && t in old(db.transactions)
              && AllKnown(old(db.products), req.items)
              && db.transactions == old(db.transactions)[t := Header(old(db.transactions)[t].userId, req.customerId, Subtotal(old(db.products), req.items))]
              && db.items == Without(old(db.items), t) + Lines(t, old(db.products), req.items)
              && db.products == Sell(Restock(old(db.products), previous), req.items)
              && (forall id :: id in old(db.products) ==>
                    db.products[id] == old(db.products)[id].(stock := old(db.products)[id].stock + QtyOf(previous, id) - QtyOf(req.items, id)))
              && (previous == req.items ==> db.products == old(db.products))
              && db.customers == old(db.customers)
              && db.nextProductId == old(db.nextProductId) && db.nextCustomerId == old(db.nextCustomerId)
              && db.nextTransactionId == old(db.nextTransactionId)
  {
    if t !in db.transactions {
      return Failure(NotFound);
    }
    var errors := RequestErrors(db.products, db.customers, req);
    if errors != [] {
      return Failure(Invalid(errors));
    }
    ghost var p0, t0, i0 := db.products, db.transactions, db.items;
    var previous := OwnedBy(db.items, t);
    CreditBack(db, previous);
    RestockKeepsPrices(p0, Pairs(previous));
    Rewrite(db, t, req, p0);
    UpdateKeepsConsistent(p0, db.products, db.customers, t0, i0, t, req);
    UpdateStock(p0, Pairs(previous), req.items);
    r := Success(t);
  }

  /**
   * The second half of `update`, after the credit-back: delete the old lines,
   * price the entries at `prices` (the table before the credit-back, which
   * has the same prices), rewrite the header and record the new lines.
   */
  method Rewrite(db: Database, t: nat, req: Request, ghost prices: map<nat, Product>)
    requires t in db.transactions && SamePrices(prices, db.products) && AllKnown(prices, req.items)
    modifies db
    ensures AllKnown(old(db.products), req.items)
    ensures db.items == Without(old(db.items), t) + Lines(t, prices, req.items)
    ensures db.transactions == old(db.transactions)[t := Header(old(db.transactions)[t].userId, req.customerId, Subtotal(prices, req.items))]
    ensures db.products == Sell(old(db.products), req.items)
    ensures db.customers == old(db.customers)
    ensures db.nextProductId == old(db.nextProductId) && db.nextCustomerId == old(db.nextCustomerId)
    ensures db.nextTransactionId == old(db.nextTransactionId)
  {
    PricesOnly(t, prices, db.products, req.items);
    db.items := Without(db.items, t);
    var subtotal := PriceCart(db.products, req.items);
    db.transactions := db.transactions[t := Header(db.transactions[t].userId, req.customerId, subtotal)];
    RecordLines(db, t, req.items);
  }

  /**
   * Updating a transaction from its current entries to `first` and then back
   * to `second`, which are those current entries, restores every stock.
   */
  method UpdateTwice(db: Database, t: nat, first: Request, second: Request)
    returns (r1: Result<nat, LedgerError>, r2: Result<nat, LedgerError>)
    requires db.Valid()
    requires Pairs(OwnedBy(db.items, t)) == second.items
    modifies db
    ensures db.Valid()
    ensures r1.Success? && r2.Success? ==> db.products == old(db.products)
  {
    r1 := Update(db, t, first);
    if r1.Failure? {
      return r1, r1;
    }
    ghost var p0 := old(db.products);
    ghost var p1 := db.products;
    assert p1 == Sell(Restock(p0, second.items), first.items);
    UpdatedOwnership(old(db.items), t, p0, first.items, t);
    PairsOfLines(t, p0, first.items);
    assert Pairs(OwnedBy(db.items, t)) == first.items;
    r2 := Update(db, t, second);
    if r2.Success? {
      assert db.products == Sell(Restock(p1, first.items), second.items);
      UpdateRoundTrip(old(db.products), second.items, first.items);
    }
  }
}
