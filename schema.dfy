/**
 * The four tables the application keeps (products, customers, transactions
 * and transaction items), the records stored in them, and the invariant the
 * controllers keep between requests.
 */
module Schema {
  import opened Wrappers
  import Pricing

  /** A product row. `price` is the `decimal:2` column, `stock` the integer one. */
  datatype Product = Product(code: string, name: string, price: real, stock: int)

  /** A customer row; `email` is nullable. */
  datatype Customer = Customer(fullName: string, phone: string, email: Option<string>)

  /** A transaction header; `customerId` is None for a walk-in sale. */
  datatype Transaction = Transaction(
    userId: nat, customerId: Option<nat>, subtotal: real, discount: real, total: real)

  /** A line item: the quantity sold and the unit price captured at sale time. */
  datatype LineItem = LineItem(
    transactionId: nat, productId: nat, qty: int, price: real, subtotal: real)

  /** The amount of `qty` units at `price`. */
  function Amount(price: real, qty: int): real
  {
    price * qty as real
  }

  /** `$transaction->items`: the rows of `items` that belong to transaction `t`, in table order. */
  function OwnedBy(items: seq<LineItem>, t: nat): (r: seq<LineItem>)
    ensures |r| <= |items|
    ensures forall k :: 0 <= k < |r| ==> r[k].transactionId == t
  {
    if items == [] then []
    else
      var last := items[|items| - 1];
      OwnedBy(items[..|items| - 1], t) + (if last.transactionId == t then [last] else [])
  }

  /** The table after `$transaction->items()->delete()`: every row not owned by `t`, in order. */
  function Without(items: seq<LineItem>, t: nat): (r: seq<LineItem>)
    ensures |r| <= |items|
    ensures forall k :: 0 <= k < |r| ==> r[k].transactionId != t
  {
    if items == [] then []
    else
      var last := items[|items| - 1];
      Without(items[..|items| - 1], t) + (if last.transactionId != t then [last] else [])
  }

  /** The sum of the line subtotals. */
  function LinesTotal(lines: seq<LineItem>): real
  {
    if lines == [] then 0.0
    else LinesTotal(lines[..|lines| - 1]) + lines[|lines| - 1].subtotal
  }

  /** A header agrees with its lines: subtotal is their sum, discount the tier discount, total the difference. */
  predicate Balanced(header: Transaction, lines: seq<LineItem>)
  {
    && header.subtotal == LinesTotal(lines)
    && header.discount == Pricing.Discount(header.subtotal)
    && header.total == header.subtotal - header.discount
  }

  /** A line item whose subtotal is its quantity times its captured price. */
  predicate WellFormedLine(line: LineItem)
  {
    line.qty >= 1 && line.subtotal == Amount(line.price, line.qty)
  }

  /** `$transaction->items` is complete: a row is returned iff it is in the table and carries `t`. */
  lemma {:induction false} OwnedByExactly(items: seq<LineItem>, t: nat)
    ensures forall x :: x in OwnedBy(items, t) <==> x in items && x.transactionId == t
  {
    if items != [] {
      var init := items[..|items| - 1];
      assert items == init + [items[|items| - 1]];
      OwnedByExactly(init, t);
    }
  }

  /** The delete keeps a row iff it is in the table and does not carry `t`. */
  lemma {:induction false} WithoutExactly(items: seq<LineItem>, t: nat)
    ensures forall x :: x in Without(items, t) <==> x in items && x.transactionId != t
  {
    if items != [] {
      var init := items[..|items| - 1];
      assert items == init + [items[|items| - 1]];
      WithoutExactly(init, t);
    }
  }

  lemma {:induction false} OwnedByAppend(a: seq<LineItem>, b: seq<LineItem>, t: nat)
    ensures OwnedBy(a + b, t) == OwnedBy(a, t) + OwnedBy(b, t)
    decreases |b|
  {
    if b == [] {
      assert a + b == a;
    } else {
      var b' := b[..|b| - 1];
      assert (a + b)[..|a + b| - 1] == a + b';
      OwnedByAppend(a, b', t);
    }
  }

  /** Deleting the rows of `t` leaves `t` with none and every other transaction with the same rows. */
  lemma {:induction false} OwnedByWithout(items: seq<LineItem>, t: nat, u: nat)
    ensures OwnedBy(Without(items, t), u) == if u == t then [] else OwnedBy(items, u)
  {
    if items != [] {
      var init := items[..|items| - 1];
      var last := items[|items| - 1];
      OwnedByWithout(init, t, u);
      OwnedByAppend(Without(init, t), if last.transactionId != t then [last] else [], u);
    }
  }

  /** Every foreign key resolves. */
  ghost predicate Referential(
    products: map<nat, Product>, customers: map<nat, Customer>,
    transactions: map<nat, Transaction>, items: seq<LineItem>)
  {
    && (forall k :: 0 <= k < |items| ==>
          items[k].transactionId in transactions && items[k].productId in products)
    && (forall t :: t in transactions && transactions[t].customerId.Some? ==>
          transactions[t].customerId.value in customers)
  }

  /** Every line is well formed and every header agrees with its lines. */
  ghost predicate Ledgered(transactions: map<nat, Transaction>, items: seq<LineItem>)
  {
    && (forall k :: 0 <= k < |items| ==> WellFormedLine(items[k]))
    && (forall t :: t in transactions ==> Balanced(transactions[t], OwnedBy(items, t)))
  }

  /** The tables' contents agree with each other, whatever the auto-increment counters. */
  ghost predicate Consistent(
    products: map<nat, Product>, customers: map<nat, Customer>,
    transactions: map<nat, Transaction>, items: seq<LineItem>)
  {
    Referential(products, customers, transactions, items) && Ledgered(transactions, items)
  }

  /** The tables. Each map is keyed by the row's auto-increment id. */
  class Database {
    var products: map<nat, Product>
    var customers: map<nat, Customer>
    var transactions: map<nat, Transaction>
    var items: seq<LineItem>
    var nextProductId: nat
    var nextCustomerId: nat
    var nextTransactionId: nat

    /** Every key is below its table's next auto-increment id. */
    ghost predicate FreshIds()
      reads this
    {
      && (forall id :: id in products ==> id < nextProductId)
      && (forall id :: id in customers ==> id < nextCustomerId)
      && (forall id :: id in transactions ==> id < nextTransactionId)
    }

    ghost predicate Valid()
      reads this
    {
      FreshIds() && Consistent(products, customers, transactions, items)
    }

    /** The empty database, as after the migrations. */
    constructor ()
      ensures Valid()
      ensures products == map[] && customers == map[] && transactions == map[] && items == []
      ensures nextProductId == 1 && nextCustomerId == 1 && nextTransactionId == 1
    {
      products, customers, transactions, items := map[], map[], map[], [];
      nextProductId, nextCustomerId, nextTransactionId := 1, 1, 1;
    }
  }
}
