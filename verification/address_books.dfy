/** `AddressBook`: the customers the farm has on record, in the order they
    were added, never two equal ones. */
module AddressBooks {
  import opened Wrappers
  import opened Customers

  datatype AddressBook = AddressBook(customers: seq<Customer>)

  /** No two stored customers are equal. */
  predicate NoDuplicates(book: AddressBook) {
    forall i, j :: 0 <= i < j < |book.customers| ==> !SameCustomer(book.customers[i], book.customers[j])
  }

  /** `new AddressBook()`. */
  function NewAddressBook(): (book: AddressBook)
    ensures NoDuplicates(book) && |book.customers| == 0
  {
    AddressBook([])
  }

  /** `containsCustomer(customer)`: the loop that looks for an equal record. */
  function ContainsCustomer(book: AddressBook, customer: Customer): (r: bool)
    ensures r <==> exists i :: 0 <= i < |book.customers| && SameCustomer(book.customers[i], customer)
    decreases |book.customers|
  {
    if |book.customers| == 0 then false
    else SameCustomer(book.customers[0], customer) || ContainsCustomer(AddressBook(book.customers[1..]), customer)
  }

  /** `addCustomer(customer)`: DuplicateCustomer, with the book unchanged,
      when an equal customer is on record; otherwise appended at the end. */
  function AddCustomer(book: AddressBook, customer: Customer): (r: Result<AddressBook>)
    ensures r.Err? <==> ContainsCustomer(book, customer)
    ensures r.Err? ==> r.error == DuplicateCustomer
    ensures r.Ok? ==> |r.value.customers| == |book.customers| + 1
                      && r.value.customers[..|book.customers|] == book.customers
                      && r.value.customers[|book.customers|] == customer
    ensures r.Ok? ==> AllRecords(r.value) == AllRecords(book) + [customer]
  {
    if ContainsCustomer(book, customer) then Err(DuplicateCustomer)
    else
      assert (book.customers + [customer])[..|book.customers|] == book.customers;
      Ok(AddressBook(book.customers + [customer]))
  }

  /** `addCustomer` keeps the no-duplicates invariant. */
  lemma AddCustomerKeepsNoDuplicates(book: AddressBook, customer: Customer)
    requires NoDuplicates(book)
    ensures AddCustomer(book, customer).Ok? ==> NoDuplicates(AddCustomer(book, customer).value)
  {
    var r := AddCustomer(book, customer);
    if r.Ok? {
      var s := r.value.customers;
      forall i, j | 0 <= i < j < |s| ensures !SameCustomer(s[i], s[j]) {
        if j == |book.customers| {
          assert s[i] == book.customers[i];
        } else {
          assert s[i] == book.customers[i] && s[j] == book.customers[j];
        }
      }
    }
  }

  /** `getAllRecords()`: every customer on record. */
  function AllRecords(book: AddressBook): seq<Customer> {
    book.customers
  }

  /** `addCustomer` applied to each of `cs` in turn, stopping at the first
      refusal. */
  function AddAll(book: AddressBook, cs: seq<Customer>): Result<AddressBook>
    decreases |cs|
  {
    if |cs| == 0 then Ok(book)
    else
      match AddAll(book, cs[..|cs| - 1])
      case Err(e) => Err(e)
      case Ok(b) => AddCustomer(b, cs[|cs| - 1])
  }

  /** When every addition succeeds, `getAllRecords` lists the earlier
      records followed by the added customers in the order they were added,
      and the book still holds no two equal customers. */
  lemma {:induction false} RecordsInInsertionOrder(book: AddressBook, cs: seq<Customer>)
    requires NoDuplicates(book)
    ensures AddAll(book, cs).Ok? ==> AllRecords(AddAll(book, cs).value) == AllRecords(book) + cs
                                     && NoDuplicates(AddAll(book, cs).value)
    decreases |cs|
  {
    if |cs| > 0 {
      var init := cs[..|cs| - 1];
      RecordsInInsertionOrder(book, init);
      match AddAll(book, init)
      case Err(_) =>
      case Ok(b) =>
        AddCustomerKeepsNoDuplicates(b, cs[|cs| - 1]);
        assert init + [cs[|cs| - 1]] == cs;
    }
  }

  /** The record `getCustomer` looks for: exactly this name and phone number. */
  predicate Matches(c: Customer, name: string, phoneNumber: int) {
    c.name == name && c.phoneNumber == phoneNumber
  }

  /** `getCustomer(name, phoneNumber)`: the first record with that name and
      phone number, or CustomerNotFound. */
  function GetCustomer(book: AddressBook, name: string, phoneNumber: int): (r: Result<Customer>)
    ensures r.Err? ==> r.error == CustomerNotFound
    ensures r.Ok? ==> r.value in book.customers
    ensures r.Err? <==> forall i :: 0 <= i < |book.customers| ==> !Matches(book.customers[i], name, phoneNumber)
    ensures r.Ok? ==> exists i :: 0 <= i < |book.customers| && book.customers[i] == r.value
                        && Matches(r.value, name, phoneNumber)
                        && forall j :: 0 <= j < i ==> !Matches(book.customers[j], name, phoneNumber)
    decreases |book.customers|
  {
    if |book.customers| == 0 then Err(CustomerNotFound)
    else if Matches(book.customers[0], name, phoneNumber) then Ok(book.customers[0])
    else
      var rest := GetCustomer(AddressBook(book.customers[1..]), name, phoneNumber);
      if rest.Ok? then
        var i :| 0 <= i < |book.customers| - 1 && book.customers[1..][i] == rest.value
                 && Matches(rest.value, name, phoneNumber)
                 && forall j :: 0 <= j < i ==> !Matches(book.customers[1..][j], name, phoneNumber);
        assert book.customers[i + 1] == rest.value;
        assert forall j :: 0 <= j < i + 1 ==> !Matches(book.customers[j], name, phoneNumber) by {
          forall j | 0 <= j < i + 1 ensures !Matches(book.customers[j], name, phoneNumber) {
            if j > 0 { assert book.customers[j] == book.customers[1..][j - 1]; }
          }
        }
        rest
      else
        assert forall i :: 1 <= i < |book.customers| ==> book.customers[i] == book.customers[1..][i - 1];
        rest
  }

  /** A customer just added can be looked up by its own name and phone
      number, and the lookup returns that very record. */
  lemma AddThenGet(book: AddressBook, customer: Customer)
    requires NoDuplicates(book)
    requires AddCustomer(book, customer).Ok?
    ensures GetCustomer(AddCustomer(book, customer).value, customer.name, customer.phoneNumber)
            == Ok(customer)
  {
    var after := AddCustomer(book, customer).value;
    var n := |book.customers|;
    assert after.customers[n] == customer;
    var r := GetCustomer(after, customer.name, customer.phoneNumber);
    assert r.Ok?;
    var i :| 0 <= i < |after.customers| && after.customers[i] == r.value
             && Matches(r.value, customer.name, customer.phoneNumber)
             && forall j :: 0 <= j < i ==> !Matches(after.customers[j], customer.name, customer.phoneNumber);
  }

  /** Lookup by name and phone succeeds exactly when the book contains a
      customer equal to one with that name and phone number. */
  lemma GetIffContains(book: AddressBook, c: Customer)
    ensures GetCustomer(book, c.name, c.phoneNumber).Ok? <==> ContainsCustomer(book, c)
    ensures GetCustomer(book, c.name, c.phoneNumber).Ok?
            ==> SameCustomer(GetCustomer(book, c.name, c.phoneNumber).value, c)
  {
    if ContainsCustomer(book, c) {
      var i :| 0 <= i < |book.customers| && SameCustomer(book.customers[i], c);
      assert Matches(book.customers[i], c.name, c.phoneNumber);
    }
  }
}
