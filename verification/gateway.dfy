/** The gateway side of `createPayment`: minting the gateway order id, building the
    transaction request payload, and the shape of the gateway's reply. */
module Gateway {
  import opened Common
  import opened JavaNum
  import opened Entities
  import opened Currency

  /** `"ORDER-" + order.getId() + "-" + System.currentTimeMillis()`. */
  function MidtransOrderId(orderId: Id, millis: int): string {
    "ORDER-" + LongToString(orderId) + "-" + LongToString(millis)
  }

  /** Two printed Longs joined by '-' split back uniquely, because a printed Long has a
      minus sign only in front and at least one digit. */
  lemma SplitAtDash(x: string, y: string, x': string, y': string)
    requires SignedNumeral(x) && SignedNumeral(x')
    requires x + "-" + y == x' + "-" + y'
    ensures x == x' && y == y'
  {
    var s := x + "-" + y;
    assert s[|x|] == '-' && s[|x'|] == '-';
    assert forall k :: 1 <= k < |x| ==> s[k] == x[k];
    assert forall k :: 1 <= k < |x'| ==> s[k] == x'[k];
    assert |x| == |x'|;
    assert x == s[..|x|] == x';
    assert y == s[|x| + 1..] == y';
  }

  /** Distinct (order id, clock reading) pairs mint distinct gateway order ids. */
  lemma MidtransOrderIdInjective(a: Id, m: int, b: Id, n: int)
    requires MidtransOrderId(a, m) == MidtransOrderId(b, n)
    ensures a == b && m == n
  {
    var x, x' := LongToString(a), LongToString(b);
    var y, y' := LongToString(m), LongToString(n);
    assert "ORDER-" + x + "-" + y == MidtransOrderId(a, m);
    assert ("ORDER-" + x + "-" + y)[6..] == x + "-" + y;
    assert ("ORDER-" + x' + "-" + y')[6..] == x' + "-" + y';
    LongToStringIsNumeral(a);
    LongToStringIsNumeral(b);
    SplitAtDash(x, y, x', y');
    LongToStringInjective(a, b);
    LongToStringInjective(m, n);
  }

  /** Ids minted for different orders differ, whatever the clock readings. */
  lemma MidtransOrderIdDistinct(a: Id, m: int, b: Id, n: int)
    requires a != b
    ensures MidtransOrderId(a, m) != MidtransOrderId(b, n)
  {
    if MidtransOrderId(a, m) == MidtransOrderId(b, n) {
      MidtransOrderIdInjective(a, m, b, n);
      assert false;
    }
  }

  datatype TransactionDetails = TransactionDetails(orderId: string, grossAmount: Int64)

  datatype CustomerDetails = CustomerDetails(firstName: Option<string>, email: Option<string>, phone: Option<string>)

  datatype ItemDetail = ItemDetail(id: Id, price: Int64, quantity: Int32, name: string)

  /** The JSON body posted to the gateway. */
  datatype MidtransRequest = MidtransRequest(
    transactionDetails: TransactionDetails,
    customerDetails: CustomerDetails,
    itemDetails: seq<ItemDetail>,
    enabledPayments: seq<string>)

  const EnabledPayments: seq<string> := ["credit_card", "gopay", "shopeepay", "bca_va", "bni_va", "bri_va", "other_va"]

  /** What the service takes from the gateway: the body's "token" and "redirect_url" (null when
      the key is absent) after a 2xx answer, or a failure of any kind (non-2xx status,
      transport error, empty body). */
  datatype GatewayResponse = Accepted(token: Option<string>, redirectUrl: Option<string>) | Rejected

  /** The order's currency, IDR when unset. */
  function OrderCurrency(order: Order): string {
    order.currency.GetOr(Base)
  }

  /** A unit price in IDR: converted unless the order's currency is exactly "IDR". */
  function PriceInIdr(price: real, currency: string): real {
    if currency == Base then price else ToIdr(price, Some(currency))
  }

  /** One entry of "item_details", or None when the item's product row is gone. */
  function BuildItemDetail(item: OrderItem, currency: string, products: map<Id, Product>): Option<ItemDetail> {
    if item.productId !in products then None
    else Some(ItemDetail(item.productId, LongValue(PriceInIdr(item.price, currency)), item.quantity, products[item.productId].name))
  }

  predicate AllProductsPresent(items: seq<OrderItem>, products: map<Id, Product>) {
    forall i :: 0 <= i < |items| ==> items[i].productId in products
  }

  function BuildItemDetails(items: seq<OrderItem>, currency: string, products: map<Id, Product>): (r: Option<seq<ItemDetail>>)
    ensures r.Some? <==> AllProductsPresent(items, products)
    ensures r.Some? ==> (|r.value| == |items|
      && forall i :: 0 <= i < |items| ==> Some(r.value[i]) == BuildItemDetail(items[i], currency, products))
  {
    if |items| == 0 then Some([])
    else
      var head, tail := BuildItemDetail(items[0], currency, products), BuildItemDetails(items[1..], currency, products);
      if head.None? then None
      else if tail.None? then
        assert !AllProductsPresent(items, products) by {
          var i :| 0 <= i < |items[1..]| && items[1..][i].productId !in products;
          assert items[i + 1].productId !in products;
        }
        None
      else Some([head.value] + tail.value)
  }

  /** `buildMidtransRequest`: "gross_amount" is the IDR amount through `longValue()`, each item
      price is converted to IDR on its own and then through `longValue()`. */
  function BuildMidtransRequest(order: Order, products: map<Id, Product>, midtransOrderId: string,
                                name: Option<string>, email: Option<string>, phone: Option<string>,
                                amount: real): (r: Option<MidtransRequest>)
    ensures r.Some? <==> AllProductsPresent(order.items, products)
    ensures r.Some? ==> r.value.transactionDetails == TransactionDetails(midtransOrderId, LongValue(amount))
    ensures r.Some? ==> r.value.customerDetails == CustomerDetails(name, email, phone)
    ensures r.Some? ==> |r.value.itemDetails| == |order.items|
    ensures r.Some? ==> forall i :: 0 <= i < |order.items| ==>
      var item, detail := order.items[i], r.value.itemDetails[i];
      && detail.id == item.productId
      && detail.quantity == item.quantity
      && detail.name == products[item.productId].name
      && detail.price == LongValue(PriceInIdr(item.price, OrderCurrency(order)))
  {
    match BuildItemDetails(order.items, OrderCurrency(order), products)
    case None => None
    case Some(details) =>
      Some(MidtransRequest(
        TransactionDetails(midtransOrderId, LongValue(amount)),
        CustomerDetails(name, email, phone),
        details,
        EnabledPayments))
  }

  /** "gross_amount" drops the fraction, toward zero. */
  lemma GrossAmountTruncates(amount: real)
    requires 0.0 <= amount < 0x8000_0000_0000_0000 as real
    ensures LongValue(amount) as real <= amount < LongValue(amount) as real + 1.0
  {
  }

  /** The items are converted and truncated one by one, so their sum need not match
      "gross_amount" even when the order total is exactly the sum of the item prices:
      two USD items of 0.00005 are sent at 0 IDR each, while the 0.0001 USD total is
      sent as 1 IDR. */
  lemma ItemsMayNotAddUpToGross()
    ensures LongValue(PriceInIdr(0.00005, "USD")) == 0
    ensures LongValue(ToIdr(0.0001, Some("USD"))) == 1
  {
    Ascii.UpperOfUpperCase("USD");
    Ascii.UpperOfUpperCase(Base);
    ConvertFormula(0.00005, "USD", Base);
    ConvertFormula(0.0001, "USD", Base);
    assert Decimal.RoundHalfUp2(0.8) == 0.8 by {
      Decimal.RoundHalfUp2Exact(0.8);
    }
    assert Decimal.RoundHalfUp2(1.6) == 1.6 by {
      Decimal.RoundHalfUp2Exact(1.6);
    }
  }
}
