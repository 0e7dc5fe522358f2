/**
 * The new-transaction form: a list of line items, a selected customer
 * (possibly none, for a walk-in sale) and two search boxes, changed by the
 * page's handlers; the totals it shows; and the submit guard that posts
 * the items to the transaction controller's `store`.
 */
module TransactionForm {
  import opened Wrappers
  import opened Text
  import opened Lists
  import opened Numeric
  import opened Client
  import Pricing
  import Schema
  import Ledger

  /** A customer as the page receives it; every field but the id may be missing. */
  datatype Customer = Customer(id: nat, name: Option<string>, fullName: Option<string>, phone: Option<string>)

  /** A form line: the product's id, the quantity, the unit price, its amount, and the product itself. */
  datatype Line = Line(productId: nat, qty: int, price: real, subtotal: real, product: Product)

  /** JavaScript truthiness of an optional string: present and not empty. */
  predicate Truthy(s: Option<string>)
  {
    s.Some? && s.value != ""
  }

  /** `getCustomerName` (Transactions/Create.tsx:44-46): `full_name || name || ''`. */
  function CustomerName(c: Customer): (r: string)
    ensures Truthy(c.fullName) ==> r == c.fullName.value
    ensures !Truthy(c.fullName) && Truthy(c.name) ==> r == c.name.value
    ensures !Truthy(c.fullName) && !Truthy(c.name) ==> r == ""
  {
    if Truthy(c.fullName) then c.fullName.value
    else if Truthy(c.name) then c.name.value
    else ""
  }

  /** `items.some(i => i.product_id === id)`. */
  predicate Listed(items: seq<Line>, id: nat)
  {
    exists k | 0 <= k < |items| :: items[k].productId == id
  }

  /** A product `filteredProducts` offers: its name matches the search, it is in stock, and not yet listed. */
  predicate Offered(p: Product, search: string, items: seq<Line>)
  {
    NameMatches(p.name, search) && p.stock > 0 && !Listed(items, p.id)
  }

  /** `filteredProducts` (Transactions/Create.tsx:49-55). */
  function FilteredProducts(products: seq<Product>, search: string, items: seq<Line>): seq<Product>
  {
    Filter(products, (p: Product) => Offered(p, search, items))
  }

  /** The list holds exactly the offered products, in catalogue order. */
  lemma FilteredProductsExactly(products: seq<Product>, search: string, items: seq<Line>)
    ensures forall p :: p in FilteredProducts(products, search, items) <==> p in products && Offered(p, search, items)
  {
    forall p | p in products && Offered(p, search, items) ensures p in FilteredProducts(products, search, items) {
      FilterComplete(products, (p: Product) => Offered(p, search, items), p);
    }
  }

  /** The phone the filter compares, `c?.phone ?? ''`. */
  function PhoneOf(c: Customer): string
  {
    if c.phone.Some? then c.phone.value else ""
  }

  /** A customer `filteredCustomers` keeps: the lower-cased search occurs in their lower-cased name or phone. */
  predicate CustomerMatches(c: Customer, search: string)
  {
    Contains(Lower(CustomerName(c)), Lower(search)) || Contains(Lower(PhoneOf(c)), Lower(search))
  }

  /** `filteredCustomers` (Transactions/Create.tsx:58-64). */
  function FilteredCustomers(customers: seq<Customer>, search: string): seq<Customer>
  {
    Filter(customers, (c: Customer) => CustomerMatches(c, search))
  }

  /** The list holds exactly the matching customers, in order; an empty search keeps them all. */
  lemma FilteredCustomersExactly(customers: seq<Customer>, search: string)
    ensures forall c :: c in FilteredCustomers(customers, search) <==> c in customers && CustomerMatches(c, search)
    ensures search == "" ==> FilteredCustomers(customers, search) == customers
  {
    var keep := (c: Customer) => CustomerMatches(c, search);
    forall c | c in customers && CustomerMatches(c, search) ensures c in FilteredCustomers(customers, search) {
      FilterComplete(customers, keep, c);
    }
    if search == "" {
      forall k | 0 <= k < |customers| ensures keep(customers[k]) {
        assert Lower(search) == "";
        EmptyNeedleMatches(Lower(CustomerName(customers[k])));
      }
      FilterKeepsAll(customers, keep);
    }
  }

  /** The key the lines are indexed by. */
  function LineProduct(line: Line): nat
  {
    line.productId
  }

  /**
   * What the lines always satisfy: one line per product, each for its own
   * product at that product's price, 1 ≤ qty ≤ the product's stock, and
   * amount = price × qty.
   */
  predicate FormInvariant(items: seq<Line>)
  {
    && Distinct(items, LineProduct)
    && forall k :: 0 <= k < |items| ==>
         && items[k].productId == items[k].product.id && items[k].price == items[k].product.price
         && 1 <= items[k].qty <= items[k].product.stock
         && items[k].subtotal == Schema.Amount(items[k].price, items[k].qty)
  }

  // ---------------------------------------------------------------------
  // The handlers

  /** `addProduct` (Transactions/Create.tsx:75-87): append a line with qty 1 and amount = price. */
  function Added(items: seq<Line>, p: Product): (r: seq<Line>)
    ensures |r| == |items| + 1 && r[..|items|] == items
    ensures r[|items|] == Line(p.id, 1, p.price, p.price, p)
  {
    items + [Line(p.id, 1, p.price, p.price, p)]
  }

  /** `removeItem` (Transactions/Create.tsx:113-115): drop the lines of this product, keeping the rest in order. */
  function Removed(items: seq<Line>, productId: nat): (r: seq<Line>)
    ensures |r| <= |items|
    ensures forall line :: line in r ==> line in items && line.productId != productId
  {
    Filter(items, (line: Line) => line.productId != productId)
  }

  /** The line after its quantity is set to `qty`, capped by the product's stock. */
  function Requantified(line: Line, qty: int): Line
  {
    var q := Min(qty, line.product.stock);
    line.(qty := q, subtotal := Schema.Amount(line.price, q))
  }

  /** `updateQuantity` (Transactions/Create.tsx:90-110). */
  function Updated(items: seq<Line>, productId: nat, qty: int): (r: seq<Line>)
    ensures qty <= 0 ==> r == Removed(items, productId)
    ensures qty > 0 ==> |r| == |items|
    ensures qty > 0 ==> forall k :: 0 <= k < |items| && items[k].productId != productId ==> r[k] == items[k]
    ensures qty > 0 ==> forall k :: 0 <= k < |items| && items[k].productId == productId ==>
              && r[k].qty == Min(qty, items[k].product.stock)
              && r[k].subtotal == Schema.Amount(items[k].price, r[k].qty)
              && r[k] == items[k].(qty := r[k].qty, subtotal := r[k].subtotal)
  {
    if qty <= 0 then Removed(items, productId)
    else seq(|items|, k requires 0 <= k < |items| =>
               if items[k].productId == productId then Requantified(items[k], qty) else items[k])
  }

  /**
   * The quantity a line's qty box hands to `updateQuantity`
   * (Transactions/Create.tsx:332): `parseInt(value) || 1`, so a typed 0 is read as 1.
   */
  function TypedQty(typed: int): (q: int)
    ensures q != 0
    ensures typed != 0 ==> q == typed
  {
    if typed == 0 then 1 else typed
  }

  /**
   * Typing into a line's qty box: 0 keeps the line at qty 1, a positive
   * number keeps it (capped), and only a negative number removes it.
   */
  lemma TypingZeroKeepsLine(items: seq<Line>, productId: nat, typed: int)
    requires FormInvariant(items)
    ensures typed >= 0 ==> |Updated(items, productId, TypedQty(typed))| == |items|
    ensures forall k :: 0 <= k < |items| && items[k].productId == productId ==>
              Updated(items, productId, TypedQty(0))[k] == items[k].(qty := 1, subtotal := items[k].price)
    ensures typed < 0 ==> Updated(items, productId, TypedQty(typed)) == Removed(items, productId)
  {
  }

  /** Adding a product the page offers keeps the form invariant. */
  lemma AddKeepsInvariant(items: seq<Line>, products: seq<Product>, search: string, p: Product)
    requires FormInvariant(items) && p in FilteredProducts(products, search, items)
    ensures FormInvariant(Added(items, p))
  {
    var r := Added(items, p);
    forall i, j | 0 <= i < j < |r| ensures LineProduct(r[i]) != LineProduct(r[j]) {
      if j == |items| {
        assert r[i] == items[i];
      } else {
        assert r[i] == items[i] && r[j] == items[j];
      }
    }
  }

  /** Removing a product keeps the form invariant and leaves exactly the other products' lines. */
  lemma RemoveKeepsInvariant(items: seq<Line>, productId: nat)
    requires FormInvariant(items)
    ensures FormInvariant(Removed(items, productId))
    ensures forall x :: x in Removed(items, productId) <==> x in items && x.productId != productId
  {
    var keep := (line: Line) => line.productId != productId;
    FilterKeepsDistinct(items, keep, LineProduct);
    var r := Removed(items, productId);
    forall k | 0 <= k < |r| ensures r[k] in items && r[k].productId != productId {
      assert r[k] in r;
    }
    forall x | x in items && x.productId != productId ensures x in r {
      FilterComplete(items, keep, x);
    }
  }

  /** Setting a quantity keeps the form invariant: a positive request is capped, a non-positive one removes. */
  lemma UpdateKeepsInvariant(items: seq<Line>, productId: nat, qty: int)
    requires FormInvariant(items)
    ensures FormInvariant(Updated(items, productId, qty))
  {
    if qty <= 0 {
      RemoveKeepsInvariant(items, productId);
    } else {
      var r := Updated(items, productId, qty);
      forall i, j | 0 <= i < j < |r| ensures LineProduct(r[i]) != LineProduct(r[j]) {
        assert r[i].productId == items[i].productId && r[j].productId == items[j].productId;
      }
    }
  }

  // ---------------------------------------------------------------------
  // The totals the page shows

  /** `items.reduce((sum, item) => sum + item.price * item.qty, 0)`. */
  function Subtotal(items: seq<Line>): (s: real)
    ensures (forall k :: 0 <= k < |items| ==> items[k].price >= 0.0 && items[k].qty >= 0) ==> s >= 0.0
  {
    if items == [] then 0.0
    else Subtotal(items[..|items| - 1]) + Schema.Amount(items[|items| - 1].price, items[|items| - 1].qty)
  }

  /** The page's own copy of the tier discount (Transactions/Create.tsx:70). */
  function Discount(subtotal: real): real
  {
    if subtotal > 1000000.0 then subtotal * 0.15 else if subtotal > 500000.0 then subtotal * 0.1 else 0.0
  }

  /** The total shown. */
  function Total(subtotal: real): (t: real)
    ensures t + Discount(subtotal) == subtotal
  {
    subtotal - Discount(subtotal)
  }

  /** The page's discount and total are the server's, at every subtotal. */
  lemma PricingMatchesServer(subtotal: real)
    ensures Discount(subtotal) == Pricing.Discount(subtotal)
    ensures Total(subtotal) == Pricing.Total(subtotal)
  {
  }

  // ---------------------------------------------------------------------
  // Submitting

  /** `items: items.map(item => ({ product_id: item.product_id, qty: item.qty }))`. */
  function Payload(items: seq<Line>): (r: seq<Ledger.CartLine>)
    ensures |r| == |items|
    ensures forall k :: 0 <= k < |items| ==> r[k] == Ledger.CartLine(items[k].productId, items[k].qty)
  {
    seq(|items|, k requires 0 <= k < |items| => Ledger.CartLine(items[k].productId, items[k].qty))
  }

  /** What `submitTransaction` does: refuse an empty form, or post a request. */
  datatype Outcome = NoItems | Submit(request: Ledger.Request)

  /** `submitTransaction` (Transactions/Create.tsx:131-145): the customer may be None, a walk-in sale. */
  function SubmitOutcome(items: seq<Line>, customer: Option<nat>): (r: Outcome)
    ensures r == NoItems <==> items == []
    ensures r.Submit? ==> r.request == Ledger.Request(customer, Payload(items))
  {
    if items == [] then NoItems else Submit(Ledger.Request(customer, Payload(items)))
  }

  /** The lines mirror the product table: every product exists at the price the page shows. */
  predicate Mirrors(items: seq<Line>, products: map<nat, Schema.Product>)
  {
    forall k :: 0 <= k < |items| ==> items[k].productId in products && products[items[k].productId].price == items[k].price
  }

  /** When the page's prices are current, the subtotal it shows is the one `store` computes. */
  lemma {:induction false} SubtotalMatchesServer(items: seq<Line>, products: map<nat, Schema.Product>)
    requires Mirrors(items, products)
    ensures Ledger.AllKnown(products, Payload(items))
    ensures Subtotal(items) == Ledger.Subtotal(products, Payload(items))
  {
    if items != [] {
      var init := items[..|items| - 1];
      SubtotalMatchesServer(init, products);
      assert Payload(items)[..|items| - 1] == Payload(init);
    }
  }

  /** A request the page posts passes `store`'s validation when its ids still exist. */
  lemma SubmittedRequestIsValid(
    items: seq<Line>, customer: Option<nat>,
    products: map<nat, Schema.Product>, customers: map<nat, Schema.Customer>)
    requires FormInvariant(items) && SubmitOutcome(items, customer).Submit?
    requires (forall k :: 0 <= k < |items| ==> items[k].productId in products)
    requires customer.Some? ==> customer.value in customers
    ensures Ledger.ValidRequest(products, customers, SubmitOutcome(items, customer).request)
  {
  }

  /** A sale whose customer box was left or made empty is posted as a walk-in sale with no customer. */
  lemma WalkInPostsNoCustomer(items: seq<Line>)
    requires items != []
    ensures SubmitOutcome(items, None).Submit?
    ensures SubmitOutcome(items, None).request.customerId == None
    ensures SubmitOutcome(items, None).request.items == Payload(items)
  {
  }

  /** The page's state between handlers. */
  class Form {
    var items: seq<Line>
    /** The selected customer's id; None for a walk-in sale. */
    var selectedCustomer: Option<nat>
    var productSearch: string
    var customerSearch: string

    ghost predicate Valid()
      reads this
    {
      FormInvariant(items)
    }

    /** The page's initial state. */
    constructor ()
      ensures Valid()
      ensures items == [] && selectedCustomer == None && productSearch == "" && customerSearch == ""
    {
      items, selectedCustomer, productSearch, customerSearch := [], None, "", "";
    }

    /** `addProduct`, called from a product the page lists; it also clears the product search. */
    method AddProduct(products: seq<Product>, p: Product)
      requires Valid() && p in FilteredProducts(products, productSearch, items)
      modifies this
      ensures Valid()
      ensures items == Added(old(items), p) && productSearch == ""
      ensures selectedCustomer == old(selectedCustomer) && customerSearch == old(customerSearch)
    {
      AddKeepsInvariant(items, products, productSearch, p);
      items := Added(items, p);
      productSearch := "";
    }

    /** `updateQuantity`. */
    method UpdateQuantity(productId: nat, qty: int)
      requires Valid()
      modifies this
      ensures Valid()
      ensures items == Updated(old(items), productId, qty)
      ensures selectedCustomer == old(selectedCustomer)
      ensures productSearch == old(productSearch) && customerSearch == old(customerSearch)
    {
      UpdateKeepsInvariant(items, productId, qty);
      items := Updated(items, productId, qty);
    }

    /** A line's qty box (Transactions/Create.tsx:332): `updateQuantity` with the typed number, 0 read as 1. */
    method TypeQuantity(productId: nat, typed: int)
      requires Valid()
      modifies this
      ensures Valid()
      ensures items == Updated(old(items), productId, TypedQty(typed))
      ensures typed >= 0 ==> |items| == |old(items)|
      ensures typed < 0 ==> items == Removed(old(items), productId)
      ensures selectedCustomer == old(selectedCustomer)
      ensures productSearch == old(productSearch) && customerSearch == old(customerSearch)
    {
      UpdateKeepsInvariant(items, productId, TypedQty(typed));
      items := Updated(items, productId, TypedQty(typed));
    }

    /** `removeItem`. */
    method RemoveItem(productId: nat)
      requires Valid()
      modifies this
      ensures Valid()
      ensures items == Removed(old(items), productId)
      ensures selectedCustomer == old(selectedCustomer)
      ensures productSearch == old(productSearch) && customerSearch == old(customerSearch)
    {
      RemoveKeepsInvariant(items, productId);
      items := Removed(items, productId);
    }

    /** `selectCustomer` (Transactions/Create.tsx:118-122): remember the id and show the name in the search box. */
    method SelectCustomer(c: Customer)
      modifies this
      ensures selectedCustomer == Some(c.id) && customerSearch == CustomerName(c)
      ensures items == old(items) && productSearch == old(productSearch)
    {
      selectedCustomer := Some(c.id);
      customerSearch := CustomerName(c);
    }

    /**
     * The customer box's `onChange` (Transactions/Create.tsx:206-211): the text
     * becomes the search, and emptying the box turns the sale into a walk-in.
     */
    method TypeCustomerSearch(value: string)
      modifies this
      ensures customerSearch == value
      ensures value == "" ==> selectedCustomer == None
      ensures value != "" ==> selectedCustomer == old(selectedCustomer)
      ensures value == "" && items != [] ==> SubmitOutcome(items, selectedCustomer) == Submit(Ledger.Request(None, Payload(items)))
      ensures items == old(items) && productSearch == old(productSearch)
    {
      customerSearch := value;
      if value == "" {
        selectedCustomer := None;
      }
    }

    /** The product box's `onChange` (Transactions/Create.tsx:258-261): only the search changes. */
    method SetProductSearch(value: string)
      modifies this
      ensures productSearch == value
      ensures items == old(items) && selectedCustomer == old(selectedCustomer) && customerSearch == old(customerSearch)
    {
      productSearch := value;
    }

    /** `clearCustomer` (Transactions/Create.tsx:125-128): back to a walk-in sale. */
    method ClearCustomer()
      modifies this
      ensures selectedCustomer == None && customerSearch == ""
      ensures items == old(items) && productSearch == old(productSearch)
    {
      selectedCustomer := None;
      customerSearch := "";
    }

    /** `submitTransaction`'s guard and payload; posting itself is left to the caller. */
    method SubmitTransaction() returns (r: Outcome)
      ensures r == SubmitOutcome(items, selectedCustomer)
      ensures r.Submit? ==> |r.request.items| == |items| >= 1 && r.request.customerId == selectedCustomer
    {
      r := SubmitOutcome(items, selectedCustomer);
    }
  }
}
