/**
 * The product controller: the validation rules of `store` and `update`, the
 * delete guard and its `can_delete` flag, and the stock-aware product search
 * used by the transaction form.
 */
module Catalogue {
  import opened Wrappers
  import opened Text
  import opened Lists
  import opened Schema
  import Ledger

  /** The fields a product form submits: `product_code`, `name`, `price`, `stock`. */
  datatype ProductInput = ProductInput(code: string, name: string, price: real, stock: int)

  /** A field the validator reports. */
  datatype ProductField = CodeField | NameField | PriceField | StockField

  datatype CatalogueError =
    | NotFound
    | Invalid(fields: seq<ProductField>)
    | HasHistory

  /** The longest `product_code` accepted (`max:100`). */
  const MaxCode: nat := 100
  /** The longest `name` accepted (`max:255`). */
  const MaxName: nat := 255

  /** Some row other than `ignore` already carries this product code. */
  predicate CodeTaken(products: map<nat, Product>, code: string, ignore: Option<nat>)
  {
    exists id | id in products :: products[id].code == code && ignore != Some(id)
  }

  /**
   * The failing fields of ProductController.php:62-67 (`ignore == None`) and
   * 91-101 (`ignore == Some(id)`, the product being edited).
   */
  function ProductErrors(products: map<nat, Product>, input: ProductInput, ignore: Option<nat>): (r: seq<ProductField>)
    ensures CodeField in r <==> IsBlank(input.code) || |input.code| > MaxCode || CodeTaken(products, input.code, ignore)
    ensures NameField in r <==> IsBlank(input.name) || |input.name| > MaxName
    ensures PriceField in r <==> input.price < 0.0
    ensures StockField in r <==> input.stock < 0
    ensures r == [] <==> Acceptable(products, input, ignore)
  {
    (if IsBlank(input.code) || |input.code| > MaxCode || CodeTaken(products, input.code, ignore) then [CodeField] else [])
    + (if IsBlank(input.name) || |input.name| > MaxName then [NameField] else [])
    + (if input.price < 0.0 then [PriceField] else [])
    + (if input.stock < 0 then [StockField] else [])
  }

  /** An input every rule accepts. */
  predicate Acceptable(products: map<nat, Product>, input: ProductInput, ignore: Option<nat>)
  {
    && !IsBlank(input.code) && |input.code| <= MaxCode && !CodeTaken(products, input.code, ignore)
    && !IsBlank(input.name) && |input.name| <= MaxName
    && input.price >= 0.0 && input.stock >= 0
  }

  /** The row an accepted input is stored as. */
  function Row(input: ProductInput): Product
  {
    Product(input.code, input.name, input.price, input.stock)
  }

  /**
   * What the validation rules keep true of the table: product codes are
   * unique and no price is negative. (Stock is not part of it: a sale can
   * drive stock below zero.)
   */
  predicate Invariant(products: map<nat, Product>)
  {
    && (forall a, b :: a in products && b in products && products[a].code == products[b].code ==> a == b)
    && (forall id :: id in products ==> products[id].price >= 0.0)
  }

  // ---------------------------------------------------------------------
  // The delete guard and the `can_delete` flag

  /** `$product->transactionItems()->exists()`. */
  predicate Referenced(items: seq<LineItem>, id: nat)
  {
    exists k | 0 <= k < |items| :: items[k].productId == id
  }

  /** The test that a line item belongs to product `id`. */
  function RefersTo(id: nat): LineItem -> bool
  {
    (l: LineItem) => l.productId == id
  }

  /** `$product->transactionItems()->count()`: the number of line items of the product. */
  function ItemCount(items: seq<LineItem>, id: nat): (n: nat)
    ensures n == |Filter(items, RefersTo(id))|
    ensures n <= |items|
  {
    if items == [] then 0
    else ItemCount(items[..|items| - 1], id) + (if items[|items| - 1].productId == id then 1 else 0)
  }

  /** The `can_delete` flag of ProductController.php:39. */
  predicate CanDelete(items: seq<LineItem>, id: nat)
  {
    ItemCount(items, id) == 0
  }

  /** The flag the index shows agrees with the guard `destroy` applies. */
  lemma {:induction false} CanDeleteAgreesWithGuard(items: seq<LineItem>, id: nat)
    ensures CanDelete(items, id) <==> !Referenced(items, id)
  {
    if items != [] {
      var init := items[..|items| - 1];
      CanDeleteAgreesWithGuard(init, id);
      if Referenced(init, id) {
        var k :| 0 <= k < |init| && init[k].productId == id;
        assert items[k] == init[k];
      }
      if Referenced(items, id) && items[|items| - 1].productId != id {
        var k :| 0 <= k < |items| && items[k].productId == id;
        assert init[k] == items[k];
      }
    }
  }

  // ---------------------------------------------------------------------
  // The controller's writes

  /** `store`: validate and insert the row under the next id. */
  method Store(db: Database, input: ProductInput) returns (r: Result<nat, CatalogueError>)
    requires db.Valid() && Invariant(db.products)
    modifies db
    ensures db.Valid() && Invariant(db.products)
    ensures r.Failure? <==> !Acceptable(old(db.products), input, None)
    ensures r.Failure? ==> r.error == Invalid(ProductErrors(old(db.products), input, None)) && unchanged(db)
    ensures r.Success? ==>
              && r.value == old(db.nextProductId) && r.value !in old(db.products)
              && db.products == old(db.products)[r.value := Row(input)]
              && db.nextProductId == old(db.nextProductId) + 1
    ensures db.customers == old(db.customers) && db.transactions == old(db.transactions)
    ensures db.items == old(db.items)
    ensures db.nextCustomerId == old(db.nextCustomerId) && db.nextTransactionId == old(db.nextTransactionId)
  {
    var errors := ProductErrors(db.products, input, None);
    if errors != [] {
      return Failure(Invalid(errors));
    }
    var id := db.nextProductId;
    InsertKeepsInvariant(db.products, id, input);
    db.products := db.products[id := Row(input)];
    db.nextProductId := db.nextProductId + 1;
    r := Success(id);
  }

  /** `update`: validate (the row may keep its own code) and overwrite every field, stock included. */
  method Update(db: Database, id: nat, input: ProductInput) returns (r: Result<nat, CatalogueError>)
    requires db.Valid() && Invariant(db.products)
    modifies db
    ensures db.Valid() && Invariant(db.products)
    ensures r.Failure? <==> id !in old(db.products) || !Acceptable(old(db.products), input, Some(id))
    ensures r.Failure? ==> unchanged(db)
    ensures r.Failure? && id !in old(db.products) ==> r.error == NotFound
    ensures r.Failure? && id in old(db.products) ==>
              r.error == Invalid(ProductErrors(old(db.products), input, Some(id)))
    ensures r.Success? ==> r.value == id && db.products == old(db.products)[id := Row(input)]
    ensures db.customers == old(db.customers) && db.transactions == old(db.transactions)
    ensures db.items == old(db.items)
    ensures db.nextProductId == old(db.nextProductId) && db.nextCustomerId == old(db.nextCustomerId)
    ensures db.nextTransactionId == old(db.nextTransactionId)
  {
    if id !in db.products {
      return Failure(NotFound);
    }
    var errors := ProductErrors(db.products, input, Some(id));
    if errors != [] {
      return Failure(Invalid(errors));
    }
    OverwriteKeepsInvariant(db.products, id, input);
    db.products := db.products[id := Row(input)];
    r := Success(id);
  }

  /** `destroy`: refuse a product with transaction history, otherwise delete its row. */
  method Destroy(db: Database, id: nat) returns (r: Result<nat, CatalogueError>)
    requires db.Valid() && Invariant(db.products)
    modifies db
    ensures db.Valid() && Invariant(db.products)
    ensures r.Failure? <==> id !in old(db.products) || Referenced(old(db.items), id)
    ensures r.Failure? ==> unchanged(db)
    ensures r.Failure? && id !in old(db.products) ==> r.error == NotFound
    ensures r.Failure? && id in old(db.products) ==> r.error == HasHistory
    ensures r.Success? ==> r.value == id && db.products == old(db.products) - {id}
    ensures db.customers == old(db.customers) && db.transactions == old(db.transactions)
    ensures db.items == old(db.items)
    ensures db.nextProductId == old(db.nextProductId) && db.nextCustomerId == old(db.nextCustomerId)
    ensures db.nextTransactionId == old(db.nextTransactionId)
  {
    if id !in db.products {
      return Failure(NotFound);
    }
    if exists k | 0 <= k < |db.items| :: db.items[k].productId == id {
      return Failure(HasHistory);
    }
    db.products := db.products - {id};
    r := Success(id);
  }

  // ---------------------------------------------------------------------
  // The validation rules as invariants

  /** Inserting an accepted input under a fresh id keeps codes unique and prices non-negative. */
  lemma InsertKeepsInvariant(products: map<nat, Product>, id: nat, input: ProductInput)
    requires Invariant(products) && id !in products && Acceptable(products, input, None)
    ensures Invariant(products[id := Row(input)])
    ensures forall other :: other in products ==> products[other].code != input.code
  {
  }

  /** Overwriting a row with an accepted input keeps codes unique and prices non-negative. */
  lemma OverwriteKeepsInvariant(products: map<nat, Product>, id: nat, input: ProductInput)
    requires Invariant(products) && id in products && Acceptable(products, input, Some(id))
    ensures Invariant(products[id := Row(input)])
    ensures forall other :: other in products && other != id ==> products[other].code != input.code
  {
  }

  /** A product may keep its own code on update: its own row never counts as a clash. */
  lemma KeepOwnCode(products: map<nat, Product>, id: nat)
    requires Invariant(products) && id in products
    ensures !CodeTaken(products, products[id].code, Some(id))
    ensures CodeTaken(products, products[id].code, None)
  {
  }

  /** A new product may not reuse the code of any existing row. */
  lemma StoreRejectsTakenCode(products: map<nat, Product>, id: nat, input: ProductInput)
    requires id in products && products[id].code == input.code
    ensures CodeField in ProductErrors(products, input, None)
  {
  }

  /** Sales and credit-backs change stock only, so they keep the catalogue invariant. */
  lemma StockMovesKeepInvariant(products: map<nat, Product>, cart: seq<Ledger.CartLine>)
    requires Invariant(products) && Ledger.AllKnown(products, cart)
    ensures Invariant(Ledger.Sell(products, cart))
    ensures Invariant(Ledger.Restock(products, cart))
  {
    var s := Ledger.Sell(products, cart);
    var r := Ledger.Restock(products, cart);
    forall id | id in products ensures s[id].code == products[id].code && s[id].price == products[id].price
      && r[id].code == products[id].code && r[id].price == products[id].price
    {
      Ledger.SellAt(products, cart, id);
      Ledger.RestockAt(products, cart, id);
    }
  }

  // ---------------------------------------------------------------------
  // The search endpoint

  /** The row limit of ProductController.php:144. */
  const SearchLimit: nat := 10

  /** A row the search keeps: in stock, and the term (when given) occurs in its name or its code. */
  predicate Listed(p: Product, term: Option<string>)
  {
    p.stock > 0 && (term.None? || Contains(p.name, term.value) || Contains(p.code, term.value))
  }

  /** Every row of `rows` that the search keeps, in table order. */
  function Matching(rows: seq<(nat, Product)>, term: Option<string>): seq<(nat, Product)>
  {
    Filter(rows, (x: (nat, Product)) => Listed(x.1, term))
  }

  /** `search`: the first ten matching rows of the table, taken in the order the table yields them. */
  function Search(rows: seq<(nat, Product)>, term: Option<string>): (r: seq<(nat, Product)>)
    ensures |r| <= SearchLimit
    ensures forall x :: x in r ==> x in rows && x.1.stock > 0
    ensures forall x :: x in r && term.Some? ==> Contains(x.1.name, term.value) || Contains(x.1.code, term.value)
  {
    var m := Matching(rows, term);
    if |m| <= SearchLimit then m else m[..SearchLimit]
  }

  /**
   * With at most ten matches the search returns every in-stock row that
   * matches; otherwise exactly ten, the first ten matches in table order.
   */
  lemma SearchComplete(rows: seq<(nat, Product)>, term: Option<string>)
    ensures |Matching(rows, term)| <= SearchLimit ==>
              forall x :: x in rows && Listed(x.1, term) ==> x in Search(rows, term)
    ensures |Matching(rows, term)| > SearchLimit ==>
              Search(rows, term) == Matching(rows, term)[..SearchLimit] && |Search(rows, term)| == SearchLimit
  {
    forall x | x in rows && Listed(x.1, term) ensures x in Matching(rows, term) {
      FilterComplete(rows, (x: (nat, Product)) => Listed(x.1, term), x);
    }
  }

  /** An empty term keeps every in-stock row, as no term does. */
  lemma EmptyTermKeepsAll(rows: seq<(nat, Product)>)
    ensures Search(rows, Some("")) == Search(rows, None)
  {
    forall k | 0 <= k < |rows| ensures Listed(rows[k].1, Some("")) == Listed(rows[k].1, None) {
      EmptyNeedleMatches(rows[k].1.name);
    }
    FilterSame(rows, (x: (nat, Product)) => Listed(x.1, Some("")), (x: (nat, Product)) => Listed(x.1, None));
  }
}
