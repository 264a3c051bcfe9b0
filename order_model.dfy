/** The order document of models/Order.js: its status and payment enums,
    defaults, the line items with their minimum quantity, and the
    pre-validate hook that numbers an order "PZ" + a six-digit sequence. */
module OrderModel {

  import opened Common
  import Text
  import opened Catalog

  type UserId = nat

  /** Orders are never deleted, so an order's id is its position in the
      collection. */
  type OrderId = nat

  datatype Status = Pending | Confirmed | InKitchen | OutForDelivery | Delivered | Cancelled

  function StatusName(s: Status): string
  {
    match s
    case Pending => "pending"
    case Confirmed => "confirmed"
    case InKitchen => "in_kitchen"
    case OutForDelivery => "out_for_delivery"
    case Delivered => "delivered"
    case Cancelled => "cancelled"
  }

  /** The enum check on `status` (the same six values the admin route
      accepts). */
  function ParseStatus(s: string): (r: Option<Status>)
    ensures r.Some? ==> StatusName(r.value) == s
    ensures r.None? ==> forall t: Status :: StatusName(t) != s
  {
    if s == "pending" then Some(Pending)
    else if s == "confirmed" then Some(Confirmed)
    else if s == "in_kitchen" then Some(InKitchen)
    else if s == "out_for_delivery" then Some(OutForDelivery)
    else if s == "delivered" then Some(Delivered)
    else if s == "cancelled" then Some(Cancelled)
    else None
  }

  datatype PaymentStatus = PaymentPending | Paid | Failed | Refunded

  function PaymentStatusName(p: PaymentStatus): string
  {
    match p
    case PaymentPending => "pending"
    case Paid => "paid"
    case Failed => "failed"
    case Refunded => "refunded"
  }

  function ParsePaymentStatus(s: string): (r: Option<PaymentStatus>)
    ensures r.Some? ==> PaymentStatusName(r.value) == s
    ensures r.None? ==> forall p: PaymentStatus :: PaymentStatusName(p) != s
  {
    if s == "pending" then Some(PaymentPending)
    else if s == "paid" then Some(Paid)
    else if s == "failed" then Some(Failed)
    else if s == "refunded" then Some(Refunded)
    else None
  }

  /** The selected components of one pizza. An absent array is the empty
      sequence; an absent `customizations` object is NoCustomization. */
  datatype Customization = Customization(
    base: Option<ItemId>,
    sauce: Option<ItemId>,
    cheese: Option<ItemId>,
    veggies: seq<ItemId>,
    meat: seq<ItemId>)

  const NoCustomization: Customization := Customization(None, None, None, [], [])

  /** A stored line: `pizza` is the representative catalog reference. */
  datatype LineItem = LineItem(
    pizza: ItemId,
    quantity: int,
    customizations: Customization,
    price: int)

  datatype Address = Address(street: string, city: string, state: string, zipCode: string, phone: string)

  datatype Order = Order(
    user: UserId,
    orderNumber: string,
    items: seq<LineItem>,
    totalAmount: int,
    status: Status,
    paymentStatus: PaymentStatus,
    paymentId: Option<string>,
    deliveryAddress: Option<Address>,
    estimatedDeliveryTime: Option<int>,
    notes: Option<string>)

  /** A document as the schema builds it before the hook runs: status and
      paymentStatus take their default "pending" and the number is unset. */
  function NewOrder(user: UserId, items: seq<LineItem>, totalAmount: int, address: Option<Address>): (o: Order)
    ensures o.status == Pending && o.paymentStatus == PaymentPending
    ensures o.orderNumber == "" && o.paymentId.None? && o.estimatedDeliveryTime.None?
    ensures o.user == user && o.items == items && o.totalAmount == totalAmount
    ensures o.deliveryAddress == address && o.notes.None?
  {
    Order(user, "", items, totalAmount, Pending, PaymentPending, None, address, None, None)
  }

  /** What the schema's validation accepts: a number is set and every line
      has quantity at least 1 (the enums and the required `pizza` and
      `price` are enforced by the types). */
  predicate SchemaValid(o: Order)
  {
    o.orderNumber != "" && forall i :: 0 <= i < |o.items| ==> o.items[i].quantity >= 1
  }

  /** The number the hook gives the order created when `count` orders
      exist: "PZ" and count+1 left-padded with '0' to six digits. */
  function OrderNumber(count: nat): (r: string)
    ensures |r| >= 8 && r[..2] == "PZ" && Text.AllDigits(r[2..])
  {
    var digits := Text.PadStart(Text.Decimal(count + 1), 6, '0');
    assert Text.AllDigits(digits) by {
      forall i | 0 <= i < |digits|
        ensures Text.IsDigit(digits[i])
      {
        if i >= |digits| - |Text.Decimal(count + 1)| {
          assert digits[i] == digits[|digits| - |Text.Decimal(count + 1)|..][i - (|digits| - |Text.Decimal(count + 1)|)];
        }
      }
    }
    assert ("PZ" + digits)[2..] == digits;
    "PZ" + digits
  }

  /** The digits after "PZ" read back as count+1. */
  lemma OrderNumberParses(count: nat)
    ensures Text.ValueOf(OrderNumber(count)[2..]) == count + 1
  {
    var d := Text.Decimal(count + 1);
    var p := Text.PadStart(d, 6, '0');
    Text.DecimalRoundTrip(count + 1);
    assert OrderNumber(count) == "PZ" + p;
    assert OrderNumber(count)[2..] == p;
    if |d| >= 6 {
      assert p == d;
    } else {
      Text.ZeroPaddingValue(6 - |d|, d);
      assert p == Text.Repeat('0', 6 - |d|) + d;
    }
  }

  /** Up to the millionth order the number is exactly eight characters. */
  lemma OrderNumberLength(count: nat)
    requires count + 1 < 1000000
    ensures |OrderNumber(count)| == 8
  {
    assert Text.Pow10(6) == 1000000;
    Text.DecimalLength(count + 1, 6);
  }

  /** Distinct counts give distinct numbers. */
  lemma OrderNumberInjective(a: nat, b: nat)
    requires a != b
    ensures OrderNumber(a) != OrderNumber(b)
  {
    OrderNumberParses(a);
    OrderNumberParses(b);
  }

  /** The pre-validate hook: a number is generated from the current order
      count only when none is set. */
  function AssignOrderNumber(current: string, count: nat): (r: string)
    ensures r != ""
    ensures current != "" ==> r == current
    ensures current == "" ==> |r| >= 8 && r[..2] == "PZ" && Text.AllDigits(r[2..]) && Text.ValueOf(r[2..]) == count + 1
  {
    if current == "" then
      OrderNumberParses(count);
      OrderNumber(count)
    else current
  }
}
