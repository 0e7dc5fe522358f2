/**
 * The point-of-sale page: a cart of items, a manual discount percentage, a
 * payment amount and a selected customer, changed by the page's handlers;
 * the totals it shows; and the checkout guard that posts the cart to the
 * transaction controller's `store`.
 */
module PosRegister {
  import opened Wrappers
  import opened Lists
  import opened Numeric
  import opened Client
  import Pricing
  import Schema
  import Ledger

  /** A cart line: the product's id, name and price, the quantity, its amount and the stock seen when added. */
  datatype CartItem = CartItem(id: nat, name: string, price: real, quantity: int, subtotal: real, maxStock: int)

  /** `selectedCustomer.id` before a customer is picked ("Please select customer"). */
  const NoCustomer: nat := 0

  /** `cart.some(cartItem => cartItem.id === id)`. */
  predicate InCart(cart: seq<CartItem>, id: nat)
  {
    exists k | 0 <= k < |cart| :: cart[k].id == id
  }

  /** A product `filteredProducts` offers: its name matches the search, it is in stock, and not yet in the cart. */
  predicate Offered(p: Product, search: string, cart: seq<CartItem>)
  {
    NameMatches(p.name, search) && p.stock > 0 && !InCart(cart, p.id)
  }

  /** `filteredProducts` (Pos/Index.tsx:49-54). */
  function FilteredProducts(products: seq<Product>, search: string, cart: seq<CartItem>): seq<Product>
  {
    Filter(products, (p: Product) => Offered(p, search, cart))
  }

  /** The list holds exactly the offered products, in catalogue order. */
  lemma FilteredProductsExactly(products: seq<Product>, search: string, cart: seq<CartItem>)
    ensures forall p :: p in FilteredProducts(products, search, cart) <==> p in products && Offered(p, search, cart)
  {
    forall p | p in products && Offered(p, search, cart) ensures p in FilteredProducts(products, search, cart) {
      FilterComplete(products, (p: Product) => Offered(p, search, cart), p);
    }
  }

  /** The key the cart is indexed by. */
  function ItemId(item: CartItem): nat
  {
    item.id
  }

  /** What the cart always satisfies: one line per product, 1 ≤ quantity ≤ stock seen, amount = quantity × price. */
  predicate CartInvariant(cart: seq<CartItem>)
  {
    && Distinct(cart, ItemId)
    && forall k :: 0 <= k < |cart| ==>
         1 <= cart[k].quantity <= cart[k].maxStock && cart[k].subtotal == Schema.Amount(cart[k].price, cart[k].quantity)
  }

  // ---------------------------------------------------------------------
  // The cart handlers

  /** The item `addToCart` creates: quantity 1, amount = price, the product's stock as the cap. */
  function NewItem(p: Product): CartItem
  {
    CartItem(p.id, p.name, p.price, 1, p.price, p.stock)
  }

  /** `addToCart` (Pos/Index.tsx:82-92): append one new item; earlier items are kept as they were. */
  function Added(cart: seq<CartItem>, p: Product): (r: seq<CartItem>)
    ensures |r| == |cart| + 1 && r[..|cart|] == cart
    ensures r[|cart|].quantity == 1 && r[|cart|].subtotal == p.price && r[|cart|].maxStock == p.stock
  {
    cart + [NewItem(p)]
  }

  /** `removeFromCart` (Pos/Index.tsx:118-120): drop the item with this id, keeping the rest in order. */
  function Removed(cart: seq<CartItem>, id: nat): (r: seq<CartItem>)
    ensures |r| <= |cart|
    ensures forall item :: item in r ==> item in cart && item.id != id
  {
    Filter(cart, (item: CartItem) => item.id != id)
  }

  /** The item after its quantity is set to `quantity`, capped by the stock seen when it was added. */
  function Requantified(item: CartItem, quantity: int): CartItem
  {
    var q := Min(quantity, item.maxStock);
    item.(quantity := q, subtotal := Schema.Amount(item.price, q))
  }

  /** `updateQuantity` (Pos/Index.tsx:96-116). */
  function Updated(cart: seq<CartItem>, id: nat, quantity: int): (r: seq<CartItem>)
    ensures quantity <= 0 ==> r == Removed(cart, id)
    ensures quantity > 0 ==> |r| == |cart|
    ensures quantity > 0 ==> forall k :: 0 <= k < |cart| && cart[k].id != id ==> r[k] == cart[k]
    ensures quantity > 0 ==> forall k :: 0 <= k < |cart| && cart[k].id == id ==>
              && r[k].quantity == Min(quantity, cart[k].maxStock)
              && r[k].subtotal == Schema.Amount(cart[k].price, r[k].quantity)
              && r[k] == cart[k].(quantity := r[k].quantity, subtotal := r[k].subtotal)
  {
    if quantity <= 0 then Removed(cart, id)
    else seq(|cart|, k requires 0 <= k < |cart| => if cart[k].id == id then Requantified(cart[k], quantity) else cart[k])
  }

  /** Adding a product the page offers keeps the cart invariant. */
  lemma AddKeepsInvariant(cart: seq<CartItem>, products: seq<Product>, search: string, p: Product)
    requires CartInvariant(cart) && p in FilteredProducts(products, search, cart)
    ensures CartInvariant(Added(cart, p))
  {
    var r := Added(cart, p);
    forall i, j | 0 <= i < j < |r| ensures ItemId(r[i]) != ItemId(r[j]) {
      if j == |cart| {
        assert r[i] == cart[i];
      } else {
        assert r[i] == cart[i] && r[j] == cart[j];
      }
    }
  }

  /** Removing an item keeps the cart invariant, and leaves no item with that id. */
  lemma RemoveKeepsInvariant(cart: seq<CartItem>, id: nat)
    requires CartInvariant(cart)
    ensures CartInvariant(Removed(cart, id))
    ensures !InCart(Removed(cart, id), id)
    ensures forall x :: x in Removed(cart, id) <==> x in cart && x.id != id
  {
    var keep := (item: CartItem) => item.id != id;
    FilterKeepsDistinct(cart, keep, ItemId);
    var r := Removed(cart, id);
    forall k | 0 <= k < |r| ensures r[k] in cart && r[k].id != id {
      assert r[k] in r;
    }
    forall x | x in cart && x.id != id ensures x in r {
      FilterComplete(cart, keep, x);
    }
  }

  /** Setting a quantity keeps the cart invariant: a positive request is capped, a non-positive one removes. */
  lemma UpdateKeepsInvariant(cart: seq<CartItem>, id: nat, quantity: int)
    requires CartInvariant(cart)
    ensures CartInvariant(Updated(cart, id, quantity))
  {
    if quantity <= 0 {
      RemoveKeepsInvariant(cart, id);
    } else {
      var r := Updated(cart, id, quantity);
      forall i, j | 0 <= i < j < |r| ensures ItemId(r[i]) != ItemId(r[j]) {
        assert r[i].id == cart[i].id && r[j].id == cart[j].id;
      }
    }
  }

  // ---------------------------------------------------------------------
  // The totals the page shows

  /** `cart.reduce((sum, item) => sum + item.subtotal, 0)`. */
  function Subtotal(cart: seq<CartItem>): (s: real)
    ensures (forall k :: 0 <= k < |cart| ==> cart[k].subtotal >= 0.0) ==> s >= 0.0
  {
    if cart == [] then 0.0 else Subtotal(cart[..|cart| - 1]) + cart[|cart| - 1].subtotal
  }

  /** The page's own copy of the tier discount (Pos/Index.tsx:60). */
  function AutoDiscount(subtotal: real): real
  {
    if subtotal > 1000000.0 then subtotal * 0.15 else if subtotal > 500000.0 then subtotal * 0.1 else 0.0
  }

  /** The page's tiers are the server's, at every subtotal. */
  lemma AutoDiscountIsServerDiscount(subtotal: real)
    ensures AutoDiscount(subtotal) == Pricing.Discount(subtotal)
  {
  }

  /** The cashier's percentage off (Pos/Index.tsx:61). */
  function ManualDiscount(subtotal: real, percent: real): real
  {
    subtotal * percent / 100.0
  }

  /** The discount shown: the larger of the tier discount and the manual one. */
  function AppliedDiscount(subtotal: real, percent: real): (d: real)
    ensures d >= AutoDiscount(subtotal) && d >= ManualDiscount(subtotal, percent)
    ensures d == AutoDiscount(subtotal) || d == ManualDiscount(subtotal, percent)
  {
    Max(AutoDiscount(subtotal), ManualDiscount(subtotal, percent))
  }

  /** The total shown. */
  function Total(subtotal: real, percent: real): (t: real)
    ensures t + AppliedDiscount(subtotal, percent) == subtotal
  {
    subtotal - AppliedDiscount(subtotal, percent)
  }

  /** The change shown. */
  function Change(payment: real, total: real): (c: real)
    ensures c >= 0.0 <==> payment >= total
  {
    payment - total
  }

  /**
   * The manual discount is never sent: the request carries only the cart,
   * and `store` applies its tiers alone. So the total the page shows is at
   * most the total the server records, equal exactly when the manual
   * discount does not exceed the tier discount.
   */
  lemma ManualDiscountOnlyOnScreen(subtotal: real, percent: real)
    ensures Total(subtotal, percent) <= Pricing.Total(subtotal)
    ensures Total(subtotal, percent) == Pricing.Total(subtotal) <==>
              ManualDiscount(subtotal, percent) <= AutoDiscount(subtotal)
  {
    AutoDiscountIsServerDiscount(subtotal);
  }

  // ---------------------------------------------------------------------
  // Checkout

  /** `items: cart.map(item => ({ product_id: item.id, qty: item.quantity }))`. */
  function Payload(cart: seq<CartItem>): (r: seq<Ledger.CartLine>)
    ensures |r| == |cart|
    ensures forall k :: 0 <= k < |cart| ==> r[k] == Ledger.CartLine(cart[k].id, cart[k].quantity)
  {
    seq(|cart|, k requires 0 <= k < |cart| => Ledger.CartLine(cart[k].id, cart[k].quantity))
  }

  /** What `processTransaction` does: refuse with an alert, or post a request. */
  datatype Outcome = EmptyCart | CustomerMissing | InsufficientPayment | Submit(request: Ledger.Request)

  /** `processTransaction` (Pos/Index.tsx:129-153): its three guards in order, then the request it posts. */
  function CheckoutOutcome(cart: seq<CartItem>, customerId: nat, payment: real, percent: real): (r: Outcome)
    ensures r == EmptyCart <==> cart == []
    ensures r == CustomerMissing <==> cart != [] && customerId == NoCustomer
    ensures r == InsufficientPayment <==>
              cart != [] && customerId != NoCustomer && payment < Total(Subtotal(cart), percent)
    ensures r.Submit? ==> r.request == Ledger.Request(Some(customerId), Payload(cart))
  {
    if cart == [] then EmptyCart
    else if customerId == NoCustomer then CustomerMissing
    else if payment < Total(Subtotal(cart), percent) then InsufficientPayment
    else Submit(Ledger.Request(Some(customerId), Payload(cart)))
  }

  /** The cart mirrors the product table: every item's product exists at the price the page shows. */
  predicate Mirrors(cart: seq<CartItem>, products: map<nat, Schema.Product>)
  {
    forall k :: 0 <= k < |cart| ==> cart[k].id in products && products[cart[k].id].price == cart[k].price
  }

  /** When the page's prices are current, the subtotal it shows is the one `store` computes. */
  lemma {:induction false} SubtotalMatchesServer(cart: seq<CartItem>, products: map<nat, Schema.Product>)
    requires CartInvariant(cart) && Mirrors(cart, products)
    ensures Ledger.AllKnown(products, Payload(cart))
    ensures Subtotal(cart) == Ledger.Subtotal(products, Payload(cart))
  {
    if cart != [] {
      var init := cart[..|cart| - 1];
      assert CartInvariant(init) by {
        forall i, j | 0 <= i < j < |init| ensures ItemId(init[i]) != ItemId(init[j]) {
          assert init[i] == cart[i] && init[j] == cart[j];
        }
      }
      SubtotalMatchesServer(init, products);
      assert Payload(cart)[..|cart| - 1] == Payload(init);
    }
  }

  /** A request the page posts passes `store`'s validation when its ids still exist. */
  lemma SubmittedRequestIsValid(
    cart: seq<CartItem>, customerId: nat, payment: real, percent: real,
    products: map<nat, Schema.Product>, customers: map<nat, Schema.Customer>)
    requires CartInvariant(cart) && CheckoutOutcome(cart, customerId, payment, percent).Submit?
    requires (forall k :: 0 <= k < |cart| ==> cart[k].id in products) && customerId in customers
    ensures Ledger.ValidRequest(products, customers, CheckoutOutcome(cart, customerId, payment, percent).request)
  {
  }

  /** The page's state between handlers. */
  class Register {
    var cart: seq<CartItem>
    /** The manual discount percentage. */
    var discount: real
    var paymentAmount: real
    /** `selectedCustomer.id`. */
    var customerId: nat
    var searchProduct: string

    ghost predicate Valid()
      reads this
    {
      CartInvariant(cart)
    }

    /** The page's initial state. */
    constructor ()
      ensures Valid()
      ensures cart == [] && discount == 0.0 && paymentAmount == 0.0
      ensures customerId == NoCustomer && searchProduct == ""
    {
      cart, discount, paymentAmount, customerId, searchProduct := [], 0.0, 0.0, NoCustomer, "";
    }

    /** `addToCart`, called from a product the page lists; it also clears the search box. */
    method AddToCart(products: seq<Product>, p: Product)
      requires Valid() && p in FilteredProducts(products, searchProduct, cart)
      modifies this
      ensures Valid()
      ensures cart == Added(old(cart), p) && searchProduct == ""
      ensures discount == old(discount) && paymentAmount == old(paymentAmount) && customerId == old(customerId)
    {
      AddKeepsInvariant(cart, products, searchProduct, p);
      cart := Added(cart, p);
      searchProduct := "";
    }

    /** `updateQuantity`. */
    method UpdateQuantity(id: nat, quantity: int)
      requires Valid()
      modifies this
      ensures Valid()
      ensures cart == Updated(old(cart), id, quantity)
      ensures discount == old(discount) && paymentAmount == old(paymentAmount)
      ensures customerId == old(customerId) && searchProduct == old(searchProduct)
    {
      UpdateKeepsInvariant(cart, id, quantity);
      cart := Updated(cart, id, quantity);
    }

    /** `removeFromCart`. */
    method RemoveFromCart(id: nat)
      requires Valid()
      modifies this
      ensures Valid()
      ensures cart == Removed(old(cart), id)
      ensures discount == old(discount) && paymentAmount == old(paymentAmount)
      ensures customerId == old(customerId) && searchProduct == old(searchProduct)
    {
      RemoveKeepsInvariant(cart, id);
      cart := Removed(cart, id);
    }

    /** `clearCart` (Pos/Index.tsx:122-126): empty the cart, zero the discount and the payment. */
    method ClearCart()
      modifies this
      ensures Valid()
      ensures cart == [] && discount == 0.0 && paymentAmount == 0.0
      ensures customerId == old(customerId) && searchProduct == old(searchProduct)
    {
      cart, discount, paymentAmount := [], 0.0, 0.0;
    }

    /** Entering a manual discount percentage. */
    method SetDiscount(percent: real)
      modifies this
      ensures discount == percent
      ensures cart == old(cart) && paymentAmount == old(paymentAmount)
      ensures customerId == old(customerId) && searchProduct == old(searchProduct)
    {
      discount := percent;
    }

    /** Picking a customer in the customer dialog. */
    method SelectCustomer(id: nat)
      modifies this
      ensures customerId == id
      ensures cart == old(cart) && discount == old(discount) && paymentAmount == old(paymentAmount)
      ensures searchProduct == old(searchProduct)
    {
      customerId := id;
    }

    /** Opening the payment dialog fills in the exact total (Pos/Index.tsx:171-175). */
    method OpenPayment()
      modifies this
      ensures paymentAmount == Total(Subtotal(cart), discount)
      ensures CheckoutOutcome(cart, customerId, paymentAmount, discount) != InsufficientPayment
      ensures cart == old(cart) && discount == old(discount)
      ensures customerId == old(customerId) && searchProduct == old(searchProduct)
    {
      paymentAmount := Total(Subtotal(cart), discount);
    }

    /** The search box's `onChange` (Pos/Index.tsx:202): only the search changes. */
    method SetSearchProduct(value: string)
      modifies this
      ensures searchProduct == value
      ensures cart == old(cart) && discount == old(discount) && paymentAmount == old(paymentAmount)
      ensures customerId == old(customerId)
    {
      searchProduct := value;
    }

    /** Typing a payment amount. */
    method SetPayment(amount: real)
      modifies this
      ensures paymentAmount == amount
      ensures cart == old(cart) && discount == old(discount)
      ensures customerId == old(customerId) && searchProduct == old(searchProduct)
    {
      paymentAmount := amount;
    }

    /** `processTransaction`'s guards and payload; posting itself is left to the caller. */
    method ProcessTransaction() returns (r: Outcome)
      ensures r == CheckoutOutcome(cart, customerId, paymentAmount, discount)
      ensures r.Submit? ==> cart != [] && customerId != NoCustomer && Change(paymentAmount, Total(Subtotal(cart), discount)) >= 0.0
    {
      r := CheckoutOutcome(cart, customerId, paymentAmount, discount);
    }

    /** The request's `onSuccess`: clear the cart and forget the customer (Pos/Index.tsx:156-159). */
    method Completed()
      modifies this
      ensures Valid()
      ensures cart == [] && discount == 0.0 && paymentAmount == 0.0 && customerId == NoCustomer
      ensures searchProduct == old(searchProduct)
    {
      ClearCart();
      customerId := NoCustomer;
    }
  }
}
