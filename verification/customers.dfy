/** `Customer`: a validated name, phone number and address, plus the
    customer's cart. A Java `null` string is `None`. */
module Customers {
  import opened Wrappers
  import opened JavaStrings
  import opened Carts

  datatype Customer = Customer(name: string, phoneNumber: int, address: string, cart: Cart)

  /** `new Customer(name, phoneNumber, address)`: a null or empty name or
      address is refused, then a negative phone number; emptiness is checked
      before trimming, so an all-blank name or address passes and is stored
      as the empty string. */
  function NewCustomer(name: Option<string>, phoneNumber: int, address: Option<string>): (r: Result<Customer>)
    ensures r.Err? ==> r.error == IllegalArgument
    ensures r.Err? <==> (name.None? || |name.value| == 0 || address.None? || |address.value| == 0
                         || phoneNumber < 0)
    ensures r.Ok? ==> && r.value.name == Trim(name.value)
                      && r.value.address == Trim(address.value)
                      && r.value.phoneNumber == phoneNumber
                      && IsEmpty(r.value.cart)
  {
    if name.None? || |name.value| == 0 || address.None? || |address.value| == 0 then Err(IllegalArgument)
    else if phoneNumber < 0 then Err(IllegalArgument)
    else Ok(Customer(Trim(name.value), phoneNumber, Trim(address.value), NewCart()))
  }

  /** `setName(newName)`: refuses null or all-blank input and leaves the
      customer as it was; otherwise stores the trimmed name. */
  function SetName(c: Customer, newName: Option<string>): (r: Result<Customer>)
    ensures r.Err? <==> newName.None? || Blank(newName.value)
    ensures r.Err? ==> r.error == IllegalArgument
    ensures r.Ok? ==> r.value == c.(name := Trim(newName.value)) && |r.value.name| > 0
  {
    if newName.None? || |Trim(newName.value)| == 0 then Err(IllegalArgument)
    else Ok(c.(name := Trim(newName.value)))
  }

  /** `setPhoneNumber(newPhone)`: refuses zero and negative numbers. */
  function SetPhoneNumber(c: Customer, newPhone: int): (r: Result<Customer>)
    ensures r.Err? <==> newPhone <= 0
    ensures r.Err? ==> r.error == IllegalArgument
    ensures r.Ok? ==> r.value == c.(phoneNumber := newPhone) && r.value.phoneNumber > 0
  {
    if newPhone <= 0 then Err(IllegalArgument) else Ok(c.(phoneNumber := newPhone))
  }

  /** `setAddress(newAddress)`: as `setName`, for the address. */
  function SetAddress(c: Customer, newAddress: Option<string>): (r: Result<Customer>)
    ensures r.Err? <==> newAddress.None? || Blank(newAddress.value)
    ensures r.Err? ==> r.error == IllegalArgument
    ensures r.Ok? ==> r.value == c.(address := Trim(newAddress.value)) && |r.value.address| > 0
  {
    if newAddress.None? || |Trim(newAddress.value)| == 0 then Err(IllegalArgument)
    else Ok(c.(address := Trim(newAddress.value)))
  }

  /** `equals`: same phone number and same name; address and cart are ignored. */
  predicate SameCustomer(a: Customer, b: Customer): (r: bool)
    ensures r <==> a.(address := b.address, cart := b.cart) == b
  {
    a.phoneNumber == b.phoneNumber && a.name == b.name
  }

  /** Customer equality is an equivalence that only the name and phone
      number can break. */
  lemma SameCustomerIsEquivalence(a: Customer, b: Customer, c: Customer, address: string, cart: Cart)
    ensures SameCustomer(a, a)
    ensures SameCustomer(a, b) <==> SameCustomer(b, a)
    ensures SameCustomer(a, b) && SameCustomer(b, c) ==> SameCustomer(a, c)
    ensures SameCustomer(a, a.(address := address, cart := cart))
  {
  }

  /** The constructor's checks are looser than the setters': an all-blank
      name is accepted and stored empty, phone number 0 is accepted, while
      the setters refuse both. */
  lemma ConstructorLooserThanSetters(c: Customer)
    ensures NewCustomer(Some(" "), 0, Some("x")).Ok?
    ensures NewCustomer(Some(" "), 0, Some("x")).value.name == ""
    ensures SetName(c, Some(" ")).Err?
    ensures SetPhoneNumber(c, 0).Err?
  {
    assert Blank(" ");
  }

  /** Names and addresses a constructor or setter stores are already trimmed. */
  lemma StoredFieldsAreTrimmed(name: Option<string>, phoneNumber: int, address: Option<string>,
                               c: Customer, newName: Option<string>)
    ensures NewCustomer(name, phoneNumber, address).Ok? ==>
              var d := NewCustomer(name, phoneNumber, address).value;
              Trim(d.name) == d.name && Trim(d.address) == d.address
    ensures SetName(c, newName).Ok? ==> Trim(SetName(c, newName).value.name) == SetName(c, newName).value.name
  {
    if name.Some? { TrimIdempotent(name.value); }
    if address.Some? { TrimIdempotent(address.value); }
    if newName.Some? { TrimIdempotent(newName.value); }
  }
}
