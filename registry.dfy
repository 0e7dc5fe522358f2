/**
 * The customer controller: the uniqueness rules of `store`,
 * `storeFromTransaction` and `update`, the delete guard and its
 * `can_delete` flag, and the index search.
 */
module Registry {
  import opened Wrappers
  import opened Text
  import opened Lists
  import opened Schema

  /** The fields a customer form submits; an empty email field arrives as None. */
  datatype CustomerInput = CustomerInput(fullName: string, phone: string, email: Option<string>)

  /** A field the validator reports. */
  datatype CustomerField = FullNameField | PhoneField | EmailField

  datatype RegistryError =
    | NotFound
    | Invalid(fields: seq<CustomerField>)
    | HasHistory

  /** The longest `full_name` accepted (`max:255`). */
  const MaxFullName: nat := 255
  /** The longest `phone` accepted (`max:20`). */
  const MaxPhone: nat := 20

  /** An address of the form local@domain with both parts non-empty. */
  predicate IsEmail(s: string)
  {
    exists i | 0 < i < |s| - 1 :: s[i] == '@'
  }

  /** Some customer is already called `name`. */
  predicate NameTaken(customers: map<nat, Customer>, name: string)
  {
    exists id | id in customers :: customers[id].fullName == name
  }

  /** Some customer already has phone number `phone`. */
  predicate PhoneTaken(customers: map<nat, Customer>, phone: string)
  {
    exists id | id in customers :: customers[id].phone == phone
  }

  /** Some customer other than `ignore` already has address `email`. */
  predicate EmailTaken(customers: map<nat, Customer>, email: string, ignore: Option<nat>)
  {
    exists id | id in customers :: customers[id].email == Some(email) && ignore != Some(id)
  }

  /** The `full_name` rule, `required|string|max:255|unique`, which never ignores the row being edited. */
  predicate FullNameFails(customers: map<nat, Customer>, name: string)
  {
    IsBlank(name) || |name| > MaxFullName || NameTaken(customers, name)
  }

  /** The `phone` rule, `required|string|max:20|unique`, which never ignores the row being edited. */
  predicate PhoneFails(customers: map<nat, Customer>, phone: string)
  {
    IsBlank(phone) || |phone| > MaxPhone || PhoneTaken(customers, phone)
  }

  /** The failing fields of `store` and `storeFromTransaction` (CustomerController.php:53-57 and 68-72). */
  function StoreErrors(customers: map<nat, Customer>, input: CustomerInput): (r: seq<CustomerField>)
    ensures FullNameField in r <==> FullNameFails(customers, input.fullName)
    ensures PhoneField in r <==> PhoneFails(customers, input.phone)
    ensures EmailField in r <==>
              input.email.Some? && (!IsEmail(input.email.value) || EmailTaken(customers, input.email.value, None))
    ensures r == [] <==> StoreAcceptable(customers, input)
  {
    (if FullNameFails(customers, input.fullName) then [FullNameField] else [])
    + (if PhoneFails(customers, input.phone) then [PhoneField] else [])
    + (if input.email.Some? && (!IsEmail(input.email.value) || EmailTaken(customers, input.email.value, None))
       then [EmailField] else [])
  }

  /** An input `store` accepts: a new name, a new phone, and no email or a new, well-formed one. */
  predicate StoreAcceptable(customers: map<nat, Customer>, input: CustomerInput)
  {
    && !FullNameFails(customers, input.fullName)
    && !PhoneFails(customers, input.phone)
    && (input.email.Some? ==> IsEmail(input.email.value) && !EmailTaken(customers, input.email.value, None))
  }

  /** The failing fields of `update` for customer `id` (CustomerController.php:109-113). */
  function UpdateErrors(customers: map<nat, Customer>, id: nat, input: CustomerInput): (r: seq<CustomerField>)
    ensures FullNameField in r <==> FullNameFails(customers, input.fullName)
    ensures PhoneField in r <==> PhoneFails(customers, input.phone)
    ensures EmailField in r <==>
              input.email.None? || !IsEmail(input.email.value) || EmailTaken(customers, input.email.value, Some(id))
    ensures r == [] <==> UpdateAcceptable(customers, id, input)
  {
    (if FullNameFails(customers, input.fullName) then [FullNameField] else [])
    + (if PhoneFails(customers, input.phone) then [PhoneField] else [])
    + (if input.email.None? || !IsEmail(input.email.value) || EmailTaken(customers, input.email.value, Some(id))
       then [EmailField] else [])
  }

  /** An input `update` accepts: a name and phone no customer has, and a well-formed email no other customer has. */
  predicate UpdateAcceptable(customers: map<nat, Customer>, id: nat, input: CustomerInput)
  {
    && !FullNameFails(customers, input.fullName)
    && !PhoneFails(customers, input.phone)
    && input.email.Some? && IsEmail(input.email.value) && !EmailTaken(customers, input.email.value, Some(id))
  }

  /** The row an accepted input is stored as. */
  function Row(input: CustomerInput): Customer
  {
    Customer(input.fullName, input.phone, input.email)
  }

  /** What the uniqueness rules keep true of the table: names, phones and (given) emails are unique. */
  predicate Invariant(customers: map<nat, Customer>)
  {
    && (forall a, b :: a in customers && b in customers && customers[a].fullName == customers[b].fullName ==> a == b)
    && (forall a, b :: a in customers && b in customers && customers[a].phone == customers[b].phone ==> a == b)
    && (forall a, b ::
          a in customers && b in customers && customers[a].email.Some? && customers[a].email == customers[b].email
          ==> a == b)
  }

  // ---------------------------------------------------------------------
  // The delete guard and the `can_delete` flag

  /** `$customer->transactions()->exists()`. */
  predicate Referenced(transactions: map<nat, Transaction>, id: nat)
  {
    exists t | t in transactions :: transactions[t].customerId == Some(id)
  }

  /** The transactions of customer `id`. */
  function TransactionsOf(transactions: map<nat, Transaction>, id: nat): set<nat>
  {
    set t | t in transactions && transactions[t].customerId == Some(id)
  }

  /** The `can_delete` flag of CustomerController.php:36: `transactions()->count() === 0`. */
  predicate CanDelete(transactions: map<nat, Transaction>, id: nat)
  {
    |TransactionsOf(transactions, id)| == 0
  }

  /** The flag the index shows agrees with the guard `destroy` applies. */
  lemma CanDeleteAgreesWithGuard(transactions: map<nat, Transaction>, id: nat)
    ensures CanDelete(transactions, id) <==> !Referenced(transactions, id)
  {
    if Referenced(transactions, id) {
      var t :| t in transactions && transactions[t].customerId == Some(id);
      assert t in TransactionsOf(transactions, id);
    }
  }

  // ---------------------------------------------------------------------
  // The controller's writes

  /** `store`: validate and insert the row under the next id. */
  method Store(db: Database, input: CustomerInput) returns (r: Result<nat, RegistryError>)
    requires db.Valid() && Invariant(db.customers)
    modifies db
    ensures db.Valid() && Invariant(db.customers)
    ensures r.Failure? <==> !StoreAcceptable(old(db.customers), input)
    ensures r.Failure? ==> r.error == Invalid(StoreErrors(old(db.customers), input)) && unchanged(db)
    ensures r.Success? ==>
              && r.value == old(db.nextCustomerId) && r.value !in old(db.customers)
              && db.customers == old(db.customers)[r.value := Row(input)]
              && db.nextCustomerId == old(db.nextCustomerId) + 1
    ensures db.products == old(db.products) && db.transactions == old(db.transactions)
    ensures db.items == old(db.items)
    ensures db.nextProductId == old(db.nextProductId) && db.nextTransactionId == old(db.nextTransactionId)
  {
    var errors := StoreErrors(db.customers, input);
    if errors != [] {
      return Failure(Invalid(errors));
    }
    var id := db.nextCustomerId;
    InsertKeepsInvariant(db.customers, id, input);
    db.customers := db.customers[id := Row(input)];
    db.nextCustomerId := db.nextCustomerId + 1;
    r := Success(id);
  }

  /** `storeFromTransaction`: the same rules and insert, handing back the new customer's id and row. */
  method StoreFromTransaction(db: Database, input: CustomerInput) returns (r: Result<(nat, Customer), RegistryError>)
    requires db.Valid() && Invariant(db.customers)
    modifies db
    ensures db.Valid() && Invariant(db.customers)
    ensures r.Failure? <==> !StoreAcceptable(old(db.customers), input)
    ensures r.Failure? ==> r.error == Invalid(StoreErrors(old(db.customers), input)) && unchanged(db)
    ensures r.Success? ==>
              && r.value == (old(db.nextCustomerId), Row(input))
              && db.customers == old(db.customers)[r.value.0 := r.value.1]
              && db.nextCustomerId == old(db.nextCustomerId) + 1
    ensures db.products == old(db.products) && db.transactions == old(db.transactions)
    ensures db.items == old(db.items)
    ensures db.nextProductId == old(db.nextProductId) && db.nextTransactionId == old(db.nextTransactionId)
  {
    var s := Store(db, input);
    match s
    case Failure(e) => r := Failure(e);
    case Success(id) => r := Success((id, db.customers[id]));
  }

  /** `update`: validate and overwrite every field of customer `id`. */
  method Update(db: Database, id: nat, input: CustomerInput) returns (r: Result<nat, RegistryError>)
    requires db.Valid() && Invariant(db.customers)
    modifies db
    ensures db.Valid() && Invariant(db.customers)
    ensures r.Failure? <==> id !in old(db.customers) || !UpdateAcceptable(old(db.customers), id, input)
    ensures r.Failure? ==> unchanged(db)
    ensures r.Failure? && id !in old(db.customers) ==> r.error == NotFound
    ensures r.Failure? && id in old(db.customers) ==>
              r.error == Invalid(UpdateErrors(old(db.customers), id, input))
    ensures r.Success? ==> r.value == id && db.customers == old(db.customers)[id := Row(input)]
    ensures db.products == old(db.products) && db.transactions == old(db.transactions)
    ensures db.items == old(db.items)
    ensures db.nextProductId == old(db.nextProductId) && db.nextCustomerId == old(db.nextCustomerId)
    ensures db.nextTransactionId == old(db.nextTransactionId)
  {
    if id !in db.customers {
      return Failure(NotFound);
    }
    var errors := UpdateErrors(db.customers, id, input);
    if errors != [] {
      return Failure(Invalid(errors));
    }
    OverwriteKeepsInvariant(db.customers, id, input);
    db.customers := db.customers[id := Row(input)];
    r := Success(id);
  }

  /** `destroy`: refuse a customer with transactions, otherwise delete the row. */
  method Destroy(db: Database, id: nat) returns (r: Result<nat, RegistryError>)
    requires db.Valid() && Invariant(db.customers)
    modifies db
    ensures db.Valid() && Invariant(db.customers)
    ensures r.Failure? <==> id !in old(db.customers) || Referenced(old(db.transactions), id)
    ensures r.Failure? ==> unchanged(db)
    ensures r.Failure? && id !in old(db.customers) ==> r.error == NotFound
    ensures r.Failure? && id in old(db.customers) ==> r.error == HasHistory
    ensures r.Success? ==> r.value == id && db.customers == old(db.customers) - {id}
    ensures db.products == old(db.products) && db.transactions == old(db.transactions)
    ensures db.items == old(db.items)
    ensures db.nextProductId == old(db.nextProductId) && db.nextCustomerId == old(db.nextCustomerId)
    ensures db.nextTransactionId == old(db.nextTransactionId)
  {
    if id !in db.customers {
      return Failure(NotFound);
    }
    if exists t | t in db.transactions :: db.transactions[t].customerId == Some(id) {
      return Failure(HasHistory);
    }
    db.customers := db.customers - {id};
    r := Success(id);
  }

  // ---------------------------------------------------------------------
  // The uniqueness rules as invariants

  /** Inserting an input `store` accepts under a fresh id keeps names, phones and emails unique. */
  lemma InsertKeepsInvariant(customers: map<nat, Customer>, id: nat, input: CustomerInput)
    requires Invariant(customers) && id !in customers && StoreAcceptable(customers, input)
    ensures Invariant(customers[id := Row(input)])
  {
  }

  /** Overwriting a row with an input `update` accepts keeps names, phones and emails unique. */
  lemma OverwriteKeepsInvariant(customers: map<nat, Customer>, id: nat, input: CustomerInput)
    requires Invariant(customers) && id in customers && UpdateAcceptable(customers, id, input)
    ensures Invariant(customers[id := Row(input)])
  {
  }

  /**
   * As written, `update` checks `full_name` and `phone` against every row,
   * the edited one included: resubmitting a customer's own name or phone is
   * refused, while their own email is allowed.
   */
  lemma UpdateRejectsUnchanged(customers: map<nat, Customer>, id: nat)
    requires id in customers
    ensures var c := customers[id];
            && FullNameField in UpdateErrors(customers, id, CustomerInput(c.fullName, c.phone, c.email))
            && PhoneField in UpdateErrors(customers, id, CustomerInput(c.fullName, c.phone, c.email))
    ensures Invariant(customers) && customers[id].email.Some? ==>
              !EmailTaken(customers, customers[id].email.value, Some(id))
  {
  }

  /** Email is optional on `store` but required on `update`. */
  lemma EmailRequiredOnlyOnUpdate(customers: map<nat, Customer>, id: nat, input: CustomerInput)
    requires input.email.None?
    ensures EmailField !in StoreErrors(customers, input)
    ensures EmailField in UpdateErrors(customers, id, input)
  {
  }

  // ---------------------------------------------------------------------
  // The index search

  /** A row the index keeps for a search term: the term occurs in its name, phone or email. */
  predicate Listed(c: Customer, term: string)
  {
    Contains(c.fullName, term) || Contains(c.phone, term) || (c.email.Some? && Contains(c.email.value, term))
  }

  /** The test the index applies to each row: none when the search is absent or blank (`filled`). */
  predicate Kept(c: Customer, search: Option<string>)
  {
    search.None? || IsBlank(search.value) || Listed(c, search.value)
  }

  /** The rows the index lists, in table order. */
  function Index(rows: seq<(nat, Customer)>, search: Option<string>): seq<(nat, Customer)>
  {
    Filter(rows, (x: (nat, Customer)) => Kept(x.1, search))
  }

  /**
   * A filled search lists exactly the rows it occurs in, and a missing or
   * blank one lists the whole table, in order.
   */
  lemma IndexLists(rows: seq<(nat, Customer)>, search: Option<string>)
    ensures search.Some? && !IsBlank(search.value) ==>
              forall x :: x in Index(rows, search) <==> x in rows && Listed(x.1, search.value)
    ensures search.None? || IsBlank(search.value) ==> Index(rows, search) == rows
  {
    forall x | x in rows && Kept(x.1, search) ensures x in Index(rows, search) {
      FilterComplete(rows, (x: (nat, Customer)) => Kept(x.1, search), x);
    }
    if search.None? || IsBlank(search.value) {
      FilterKeepsAll(rows, (x: (nat, Customer)) => Kept(x.1, search));
    }
  }
}
