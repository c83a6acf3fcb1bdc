/** The customer checkout screen: the name and phone checks run before an order is sent,
    the totals shown to the customer, and which request the "place order" button issues. */
module CustomerCartView {
  import opened Wrappers
  import opened Strings
  import opened Types
  import OrderController

  const NameError := "Name is required (min 2 characters)"
  const PhoneError := "Valid phone number required"

  /** Tax charged on top of the subtotal: 5%. */
  const TaxRate: real := 0.05

  /** A name passes when its trimmed form is at least two UTF-16 code units long. */
  predicate NameValid(name: string) {
    Utf16Length(Trim(name)) >= 2
  }

  /** A phone passes when at least seven digits remain once everything else is removed. */
  predicate PhoneValid(phone: string) {
    |DigitsOf(phone)| >= 7
  }

  function Tax(subtotal: real): real {
    subtotal * TaxRate
  }

  /** The grand total shown to the customer, which is the total the server charges. */
  function GrandTotal(subtotal: real): (g: real)
    ensures g == OrderController.OrderTotal(subtotal)
    ensures subtotal >= 0.0 ==> g >= subtotal
  {
    subtotal + Tax(subtotal)
  }

  /** `selectedTable ?? 1`. */
  function TableNumber(selectedTable: Option<int>): (t: int)
    ensures selectedTable.None? ==> t == 1
    ensures selectedTable.Some? ==> t == selectedTable.value
  {
    selectedTable.GetOr(1)
  }

  /** The request the checkout sends: a plain order for cash, a payment intent otherwise;
      both carry the trimmed name and phone. */
  datatype CheckoutRequest =
    | PlaceOrder(userId: UserId, tableNumber: int, items: seq<OrderItem>, paymentMethod: PaymentMethod,
                 customerName: string, customerPhone: string)
    | CreatePaymentIntent(userId: UserId, tableNumber: int, items: seq<OrderItem>, paymentMethod: PaymentMethod,
                          customerName: string, customerPhone: string)

  /** The checkout's input fields and the error texts shown under them. */
  class CheckoutForm {
    var customerName: string
    var customerPhone: string
    var nameError: string
    var phoneError: string

    constructor (name: string, phone: string)
      ensures customerName == name && customerPhone == phone
      ensures nameError == "" && phoneError == ""
    {
      customerName, customerPhone := name, phone;
      nameError, phoneError := "", "";
    }

    /** `validateCustomerInfo`: both fields are checked every time, each error text is set
        or cleared by its own check, and the result is the conjunction of the two. */
    method ValidateCustomerInfo() returns (valid: bool)
      modifies this
      ensures valid <==> NameValid(customerName) && PhoneValid(customerPhone)
      ensures nameError == if NameValid(customerName) then "" else NameError
      ensures phoneError == if PhoneValid(customerPhone) then "" else PhoneError
      ensures customerName == old(customerName) && customerPhone == old(customerPhone)
    {
      var name, phone := customerName, customerPhone;
      valid := true;
      var trimmed := Trim(name);
      if |trimmed| == 0 || Utf16Length(trimmed) < 2 {
        nameError := NameError;
        valid := false;
      } else {
        nameError := "";
      }
      var digits := DigitsOf(phone);
      if |digits| < 7 {
        phoneError := PhoneError;
        valid := false;
      } else {
        phoneError := "";
      }
    }

    /** The decision half of `handlePlaceOrder`: nothing is sent when validation fails or
        the route names no restaurant; otherwise the request for the chosen payment. */
    method PlaceOrderRequest(userId: Option<UserId>, selectedTable: Option<int>, items: seq<OrderItem>,
                             selectedPayment: PaymentMethod)
      returns (request: Option<CheckoutRequest>)
      modifies this
      ensures request == CheckoutRequestFor(customerName, customerPhone, userId, selectedTable, items, selectedPayment)
      ensures nameError == if NameValid(customerName) then "" else NameError
      ensures phoneError == if PhoneValid(customerPhone) then "" else PhoneError
      ensures customerName == old(customerName) && customerPhone == old(customerPhone)
    {
      var valid := ValidateCustomerInfo();
      if !valid {
        return None;
      }
      if userId.None? || userId.value == "" {
        return None;
      }
      var table := TableNumber(selectedTable);
      var name, phone := Trim(customerName), Trim(customerPhone);
      if selectedPayment == Cash {
        request := Some(PlaceOrder(userId.value, table, items, selectedPayment, name, phone));
      } else {
        request := Some(CreatePaymentIntent(userId.value, table, items, selectedPayment, name, phone));
      }
    }
  }

  /** Which request, if any, the checkout sends for the given form and cart. */
  function CheckoutRequestFor(name: string, phone: string, userId: Option<UserId>, selectedTable: Option<int>,
                              items: seq<OrderItem>, payment: PaymentMethod): Option<CheckoutRequest>
  {
    if !(NameValid(name) && PhoneValid(phone)) || userId.None? || userId.value == "" then None
    else if payment == Cash then
      Some(PlaceOrder(userId.value, TableNumber(selectedTable), items, payment, Trim(name), Trim(phone)))
    else
      Some(CreatePaymentIntent(userId.value, TableNumber(selectedTable), items, payment, Trim(name), Trim(phone)))
  }

  // ---- What the checkout satisfies ----

  /** No request is sent unless both fields pass; a sent request carries the route's
      restaurant, the table (1 by default), the cart and trimmed contact details that pass
      the same checks. */
  lemma RequestOnlyWhenValid(name: string, phone: string, userId: Option<UserId>, selectedTable: Option<int>,
                             items: seq<OrderItem>, payment: PaymentMethod)
    ensures var r := CheckoutRequestFor(name, phone, userId, selectedTable, items, payment);
      && (r.Some? <==> NameValid(name) && PhoneValid(phone) && userId.Some? && userId.value != "")
      && (r.Some? ==>
           && r.value.userId == userId.value && r.value.items == items && r.value.paymentMethod == payment
           && r.value.tableNumber == TableNumber(selectedTable)
           && r.value.customerName == Trim(name) && NameValid(r.value.customerName)
           && r.value.customerPhone == Trim(phone))
      && (r.Some? ==> (r.value.PlaceOrder? <==> payment == Cash))
  {
    TrimIdempotent(name);
  }

  /** Whitespace around the name never changes the verdict, and a name of only
      whitespace is rejected. */
  lemma NameIgnoresPadding(pad: string, name: string, pad': string)
    requires AllWhitespace(pad) && AllWhitespace(pad')
    ensures NameValid(pad + name + pad') <==> NameValid(name)
    ensures AllWhitespace(name) ==> !NameValid(name)
  {
    TrimIgnoresPadding(pad, name, pad');
    if AllWhitespace(name) {
      TrimIgnoresPadding(name, [], []);
      assert name + [] + [] == name;
    }
  }

  /** The name is measured in UTF-16 code units, as `trim().length` does: a single
      character outside the Basic Multilingual Plane passes, a single letter does not. */
  lemma NameInCodeUnits()
    ensures NameValid("\U{1F355}")
    ensures !NameValid("a") && NameValid("ab")
  {
    var pizza, a, b := '\U{1F355}', 'a', 'b';
    assert "\U{1F355}" == [pizza] && "a" == [a] && "ab" == [a] + [b];
    TrimOfTrimmed([pizza]);
    Utf16LengthOfChar(pizza);
    TrimOfTrimmed([a]);
    Utf16LengthOfChar(a);
    TrimOfTrimmed([a] + [b]);
    Utf16LengthOfChar(b);
    Utf16LengthAppend([a], [b]);
  }

  /** Separators do not count towards the seven digits: inserting characters that are not
      digits anywhere in a phone number never changes the verdict. */
  lemma PhoneIgnoresSeparators(a: string, sep: string, b: string)
    requires forall i :: 0 <= i < |sep| ==> !IsDigit(sep[i])
    ensures PhoneValid(a + sep + b) <==> PhoneValid(a + b)
  {
    FilterAppend(a + sep, b, IsDigit);
    FilterAppend(a, sep, IsDigit);
    FilterAppend(a, b, IsDigit);
    FilterRejected(sep, IsDigit);
    assert DigitsOf(a) + [] == DigitsOf(a);
  }

  /** Seven or more bare digits always pass, and six or fewer never do. */
  lemma PhoneOfDigits(digits: string)
    requires forall i :: 0 <= i < |digits| ==> IsDigit(digits[i])
    ensures PhoneValid(digits) <==> |digits| >= 7
  {
    DigitsOfAllDigits(digits);
  }

  /** The grand total is the subtotal plus five percent of it. */
  lemma GrandTotalIsSubtotalPlusTax(subtotal: real)
    ensures Tax(subtotal) == subtotal / 20.0
    ensures GrandTotal(subtotal) == subtotal * 1.05
  {
  }
}
