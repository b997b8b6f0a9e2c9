# Fashion store payments backend, modelled in Dafny

This project models the core of a Spring Boot shop backend. The backend sells fashion products, takes orders, and collects payment through the Midtrans Snap gateway. It converts every charge to Indonesian rupiah (IDR) before sending it to the gateway.

The model covers five areas:

- **Currency conversion** (`Currency`, `Decimal`, `Ascii`): a fixed rate table with IDR as the base, and HALF_UP rounding to two decimals.
- **Payment creation** (`Payments.CreatePayment`, `Gateway`):
  - minting the gateway order id `ORDER-<order id>-<millis>`;
  - building the gateway request;
  - recording a PENDING payment and moving the order to PENDING_PAYMENT.
- **Webhook handling** (`Payments.HandleNotification`, `Signature`, `Hex`):
  - verifying the SHA-512 signature by comparing lower-case hex;
  - looking up the payment by its gateway order id;
  - mapping the gateway's transaction status onto a payment status and an order status.
- **Order and stock bookkeeping** (`Orders`): the order total summed from the item subtotals (decimal amounts), stock decremented on create and restored on cancel. Stock quantities follow Java `int` wrap-around.
- **Product store operations** (`Products`) and the **Payment entity** (`PaymentEntity`): its status enumeration, field defaults, and timestamp hooks.

The three repositories are maps from primary key to row (`Store.Db`). Each service method is a pure function from a store to either a new store or an error. A transactional method that throws therefore leaves the store as it was.

Some parts of the system become parameters:

- the clock;
- the gateway call (`MidtransRequest -> GatewayResponse`);
- SHA-512 over UTF-8 bytes (`string -> seq<JByte>`);
- the date parser;
- `OrderItem.calculateSubtotal`;
- the keys that identity columns issue.

The invariant `Payments.Valid` describes every committed store:

- every payment references an existing order;
- no order has two payments;
- every payment carries a gateway order id minted for its own order, and uses that id as its transaction id.

`createPayment`, `handleMidtransNotification` and the order operations preserve this invariant. In a valid store the declared unique columns can never collide.

Amounts are exact `real`s. `BigDecimal.longValue()` is modelled as truncation toward zero followed by 64-bit wrap-around. `Long.toString` is modelled together with a parser that inverts it, which is what makes the minted ids injective.

## Model

| member | source | states |
|---|---|---|
| Currency.ConvertNullCode | src/main/java/com/realshyt/fashion/service/CurrencyConversionService.java:43-45 | if either currency code is null, the amount comes back unchanged |
| Currency.ConvertSameCode | src/main/java/com/realshyt/fashion/service/CurrencyConversionService.java:47-49 | exactly equal codes return the amount unchanged and unrounded |
| Currency.RescaleFormula | src/main/java/com/realshyt/fashion/service/CurrencyConversionService.java:53-62 | with a positive target rate, the result is amount × source rate / target rate, rounded HALF_UP to cents |
| Currency.RescaleSameRate | src/main/java/com/realshyt/fashion/service/CurrencyConversionService.java:53-62 | when the two rates are equal they cancel, and only the rounding to cents remains |
| Currency.ConvertWithFormula | src/main/java/com/realshyt/fashion/service/CurrencyConversionService.java:51-62 | for any table with positive rates, two different codes are rescaled by the rates of their upper-cased forms; both rates are positive (unknown codes get rate 1), so the zero guard is not taken |
| Currency.RateOfPositive | src/main/java/com/realshyt/fashion/service/CurrencyConversionService.java:19-32 | every code, listed or not, has a strictly positive rate in the service's table |
| Currency.ConvertFormula | src/main/java/com/realshyt/fashion/service/CurrencyConversionService.java:51-62 | with the service's fixed table, two different codes are always rescaled by positive rates, and the zero guard is never taken |
| Currency.RatesPositive | src/main/java/com/realshyt/fashion/service/CurrencyConversionService.java:19-32 | every rate in the table is strictly positive, so the zero-divisor guard is never taken |
| Currency.ZeroRateReturnsAmount | src/main/java/com/realshyt/fashion/service/CurrencyConversionService.java:58-60 | with a zero target rate, the guard returns the amount unchanged |
| Currency.CaseVariantsAreRounded | src/main/java/com/realshyt/fashion/service/CurrencyConversionService.java:47-62 | "usd" to "USD" is not caught by the equality test; it goes through the arithmetic and comes out rounded to cents |
| Currency.UnknownCodeIsBase | src/main/java/com/realshyt/fashion/service/CurrencyConversionService.java:52-56 | a code missing from the table after upper-casing has the same rate as IDR |
| Currency.UnknownCodeToIdr | src/main/java/com/realshyt/fashion/service/CurrencyConversionService.java:52-69 | converting from an unknown code to IDR gives the amount rounded to cents |
| Currency.ToIdrExample | src/main/java/com/realshyt/fashion/service/CurrencyConversionService.java:68-77 | 100 USD is 1,600,000.00 IDR, and 1,600,000 IDR is 100.00 USD |
| Currency.ConvertRoundTripBound | src/main/java/com/realshyt/fashion/service/CurrencyConversionService.java:42-77 | converting a→b→a drifts from the original amount by at most 0.005·(1 + rate(b)/rate(a)) |
| Currency.SupportedCurrenciesAreTwelve | src/main/java/com/realshyt/fashion/service/CurrencyConversionService.java:82-84 | the supported codes are exactly the twelve table keys |
| Currency.LowerCaseCodeSupported | src/main/java/com/realshyt/fashion/service/CurrencyConversionService.java:89-91 | support is checked after upper-casing, so "usd" is supported and "XYZ" is not |
| Currency.DetectUserCurrency | src/main/java/com/realshyt/fashion/service/CurrencyConversionService.java:97-113 | a listed region gets its table currency; a null or unlisted region gets IDR; the answer is always a supported code |
| Currency.RegionsAreTwelve | src/main/java/com/realshyt/fashion/service/CurrencyConversionService.java:99-110 | the region table has exactly the twelve listed region codes |
| Currency.RegionCurrencyIsIsoPrefix | src/main/java/com/realshyt/fashion/service/CurrencyConversionService.java:99-110 | each region maps to its own currency: a three-letter code that starts with the region code |
| Currency.RegionCurrenciesCoverTable | src/main/java/com/realshyt/fashion/service/CurrencyConversionService.java:97-112 | every supported currency is the currency of some listed region, and no region maps outside the rate table |
| Currency.DetectUserCurrencyExamples | src/main/java/com/realshyt/fashion/service/CurrencyConversionService.java:97-113 | the region keys are case-sensitive: "US" maps to USD, "us" falls back to IDR |
| Currency.DetectedCurrencySupported | src/main/java/com/realshyt/fashion/service/CurrencyConversionService.java:97-113 | every region maps to a code that `isCurrencySupported` accepts |
| Decimal.RoundHalfUp2Window | src/main/java/com/realshyt/fashion/service/CurrencyConversionService.java:62 | rounding gives a whole number of cents, and ties round away from zero on both signs |
| Decimal.RoundHalfUp2Unique | src/main/java/com/realshyt/fashion/service/CurrencyConversionService.java:62 | the rounding window determines the rounded value uniquely |
| Decimal.RoundHalfUp2Error | src/main/java/com/realshyt/fashion/service/CurrencyConversionService.java:62 | rounding moves a value by at most half a cent |
| Decimal.RoundHalfUp2Exact | src/main/java/com/realshyt/fashion/service/CurrencyConversionService.java:62 | a value that is already whole cents is left alone |
| Decimal.RoundHalfUp2Odd | src/main/java/com/realshyt/fashion/service/CurrencyConversionService.java:62 | HALF_UP is symmetric: rounding −x gives the negation of rounding x |
| Ascii.UpperOfUpperCase | src/main/java/com/realshyt/fashion/service/CurrencyConversionService.java:52 | upper-casing a string that has no lower-case letters leaves it unchanged |
| Ascii.UpperIdempotent | src/main/java/com/realshyt/fashion/service/ProductService.java:34-36 | upper-casing twice is upper-casing once |
| Ascii.EmptyKeywordMatches | src/main/java/com/realshyt/fashion/service/ProductService.java:34-36 | every name contains the empty keyword |
| Ascii.KeywordCaseIrrelevant | src/main/java/com/realshyt/fashion/service/ProductService.java:34-36 | case-insensitive containment does not depend on the keyword's case |
| JavaNum.Wrap32Add | src/main/java/com/realshyt/fashion/service/OrderService.java:50 | adding in `int` arithmetic step by step is the same as adding once and wrapping |
| JavaNum.LongValue | src/main/java/com/realshyt/fashion/service/PaymentService.java:137 | `longValue()` gives a 64-bit value that equals the truncation toward zero whenever that truncation fits |
| JavaNum.LongToStringRoundTrip | src/main/java/com/realshyt/fashion/service/PaymentService.java:70 | a printed `long` parses back to itself |
| JavaNum.LongToStringInjective | src/main/java/com/realshyt/fashion/service/PaymentService.java:70 | different `long`s print differently |
| JavaNum.LongToStringIsNumeral | src/main/java/com/realshyt/fashion/service/PaymentService.java:70 | a printed `long` is an optional minus sign followed by at least one digit |
| Gateway.MidtransOrderIdInjective | src/main/java/com/realshyt/fashion/service/PaymentService.java:70 | equal minted ids come from the same order id and the same clock reading |
| Gateway.MidtransOrderIdDistinct | src/main/java/com/realshyt/fashion/service/PaymentService.java:70 | ids minted for different orders differ, whatever the clock says |
| Gateway.BuildItemDetails | src/main/java/com/realshyt/fashion/service/PaymentService.java:149-165 | one entry per order line, in order; fails exactly when some line's product row is missing |
| Gateway.BuildMidtransRequest | src/main/java/com/realshyt/fashion/service/PaymentService.java:129-176 | `gross_amount` is `longValue` of the IDR amount; the customer fields are passed through; each item carries its product id, quantity and product name, and a price converted to IDR on its own and then truncated |
| Gateway.GrossAmountTruncates | src/main/java/com/realshyt/fashion/service/PaymentService.java:137 | for a non-negative amount below 2^63, `gross_amount` drops the fraction: it is at most the amount and more than the amount minus 1 |
| Gateway.ItemsMayNotAddUpToGross | src/main/java/com/realshyt/fashion/service/PaymentService.java:137-161 | item prices are truncated one by one, so their sum can differ from `gross_amount`: two USD 0.00005 items go out at 0 IDR each, while the USD 0.0001 total goes out as 1 IDR |
| Hex.HexEncode | src/main/java/com/realshyt/fashion/service/PaymentService.java:289-294 | the StringBuilder loop produces two lower-case hex digits per byte, zero-padded |
| Hex.ByteHexIsTwoNibbles | src/main/java/com/realshyt/fashion/service/PaymentService.java:291-293 | `toHexString(0xff & b)` padded with '0' is the high nibble followed by the low nibble |
| Hex.HexOfShape | src/main/java/com/realshyt/fashion/service/PaymentService.java:289-294 | the encoding has length twice the digest and only lower-case hex digits |
| Hex.HexRoundTrip | src/main/java/com/realshyt/fashion/service/PaymentService.java:289-294 | decoding the hex gives back the digest |
| Hex.HexDecodeCanonical | src/main/java/com/realshyt/fashion/service/PaymentService.java:289-294 | only the canonical lower-case encoding decodes |
| Hex.HexEqualIffDecodes | src/main/java/com/realshyt/fashion/service/PaymentService.java:289-296 | a string equals the hex of a digest exactly when it decodes to that digest |
| Signature.VerifySignature | src/main/java/com/realshyt/fashion/service/PaymentService.java:277-301 | true exactly when `signature_key` is present and decodes to SHA-512 of order_id‖status_code‖gross_amount‖server key |
| Signature.UpperCaseSignatureRejected | src/main/java/com/realshyt/fashion/service/PaymentService.java:289-296 | the comparison is case-sensitive, so a signature with an upper-case hex digit is always rejected |
| Signature.WrongLengthRejected | src/main/java/com/realshyt/fashion/service/PaymentService.java:289-296 | a signature whose length is not twice the digest length is always rejected |
| Signature.FieldBoundariesNotSigned | src/main/java/com/realshyt/fashion/service/PaymentService.java:281-284 | the fields are joined without separators, so moving characters between order_id and status_code keeps a signature valid |
| Signature.NullFieldSignsAsText | src/main/java/com/realshyt/fashion/service/PaymentService.java:281-284 | a missing field signs exactly like the text "null" |
| PaymentEntity.NewPayment | src/main/java/com/realshyt/fashion/entity/Payment.java:28-33 | a new payment has currency "IDR" and status PENDING, and cannot be inserted before its order, amount and creation time are set |
| PaymentEntity.SevenStatuses | src/main/java/com/realshyt/fashion/entity/Payment.java:83-91 | the status is one of exactly seven distinct values |
| PaymentEntity.StatusNameRoundTrip | src/main/java/com/realshyt/fashion/entity/Payment.java:31-33 | the stored enum name reads back as the same status, and only the seven names read back |
| PaymentEntity.OnCreate | src/main/java/com/realshyt/fashion/entity/Payment.java:72-76 | persisting sets `createdAt` and `updatedAt` from two separate clock readings, which need not agree, and changes nothing else |
| PaymentEntity.SaveUpdate | src/main/java/com/realshyt/fashion/entity/Payment.java:66-81 | an unchanged entity is not written; an edited one keeps its stored `createdAt` and gets `updatedAt` = now |
| Payments.SingleResult | src/main/java/com/realshyt/fashion/repository/PaymentRepository.java:11-15 | a single-result query succeeds exactly on a one-row match; no row means not found, several rows mean non-unique |
| Payments.GetPaymentByOrderId | src/main/java/com/realshyt/fashion/service/PaymentService.java:313-316 | finds the order's payment when exactly one row references the order, and fails with PaymentNotFound exactly when none does |
| Payments.MidtransOrderIdsUnique | src/main/java/com/realshyt/fashion/entity/Payment.java:42-43 | in a valid store, no two payments share a gateway order id |
| Payments.TransactionIdsUnique | src/main/java/com/realshyt/fashion/entity/Payment.java:39-40 | in a valid store, no two payments share a transaction id |
| Payments.GetPaymentByOrderIdInValidStore | src/main/java/com/realshyt/fashion/service/PaymentService.java:313-316 | in a valid store, the lookup by order succeeds exactly when `existsByOrderId` holds |
| Payments.CreatePayment | src/main/java/com/realshyt/fashion/service/PaymentService.java:47-127 | it fails, changing nothing, on a null or absent order, an existing payment, a dangling product, a gateway failure, or a unique-column clash; on success exactly one PENDING IDR row is added with the converted amount and the minted id as both gateway order id and transaction id; the order moves to PENDING_PAYMENT; the response shows the amount in the order's currency; once the order is present, unpaid and its products exist, the call succeeds exactly when the gateway accepts and the minted id is free, and fails with PaymentCreationFailed exactly when the gateway rejects or the id is taken |
| Payments.MintedIdIsFresh | src/main/java/com/realshyt/fashion/service/PaymentService.java:70-100 | in a valid store, an id minted for an order with no payment collides with no stored id |
| Payments.CreatePaymentFailsOnlyAtGateway | src/main/java/com/realshyt/fashion/service/PaymentService.java:90-126 | in a valid store, PaymentCreationFailed means the gateway rejected the request |
| Payments.CreatePaymentSucceedsInValidStore | src/main/java/com/realshyt/fashion/service/PaymentService.java:57-126 | in a valid store, for a present order without a payment whose products all exist, the call succeeds exactly when the gateway accepts and fails with PaymentCreationFailed exactly when it rejects |
| Payments.CreatePaymentPreservesValid | src/main/java/com/realshyt/fashion/service/PaymentService.java:73-104 | payment creation keeps the store invariant |
| Payments.CreateThenLookup | src/main/java/com/realshyt/fashion/service/PaymentService.java:52-54 | after a payment is created, the order's payment is the new row and a second creation fails with DuplicatePayment |
| Payments.CreatePaymentInUsd | src/main/java/com/realshyt/fashion/service/PaymentService.java:57-121 | a 100 USD order stores 1,600,000 IDR and shows 100 USD with status "PENDING" |
| Payments.EditPaymentEffect | src/main/java/com/realshyt/fashion/service/PaymentService.java:230-271 | the setters copy payment type and fraud status; they copy each present timestamp as parsed, or as now when it does not parse; they apply the status table; no other column changes |
| Payments.ApplyNotification | src/main/java/com/realshyt/fashion/service/PaymentService.java:230-274 | a missing order fails with OrderNotFound and a null status with NullTransactionStatus; otherwise the call succeeds, and only that payment and its order change, as the status table says |
| Payments.HandleNotification | src/main/java/com/realshyt/fashion/service/PaymentService.java:215-275 | a bad signature fails with InvalidSignature and a failed lookup with its error, both before anything changes; an authentic notification for a found payment whose order exists, with a status, succeeds; a successful call applies the table capture/settlement → SUCCESS/PROCESSING, pending → PENDING/PENDING_PAYMENT, deny/cancel → FAILED/CANCELLED with the status message as failure reason, expire → EXPIRED/CANCELLED, anything else → both unchanged |
| Payments.NotifiedPaymentInValidStore | src/main/java/com/realshyt/fashion/service/PaymentService.java:226-227 | in a valid store, the lookup by gateway order id finds a payment exactly when one carries that id, and never reports a non-unique result |
| Payments.HandleNotificationInValidStore | src/main/java/com/realshyt/fashion/service/PaymentService.java:220-243 | in a valid store, an authentic notification for a known id that carries a status always succeeds; one for an unknown id fails with PaymentNotFound |
| Payments.HandleNotificationPreservesValid | src/main/java/com/realshyt/fashion/service/PaymentService.java:229-274 | applying a notification keeps the store invariant |
| Payments.NotificationReplayIdempotent | src/main/java/com/realshyt/fashion/service/PaymentService.java:243-274 | delivering a notification twice leaves the store as one delivery did, when the clock has not moved or every timestamp parses |
| Payments.LatePendingUndoesSettlement | src/main/java/com/realshyt/fashion/service/PaymentService.java:243-254 | the table ignores the prior state: a "pending" that arrives after "settlement" puts the payment back to PENDING and the order back to PENDING_PAYMENT |
| Payments.OrderOperationsPreserveValid | src/main/java/com/realshyt/fashion/service/OrderService.java:38-83 | creating, updating and cancelling orders keeps the payment invariant |
| Orders.AdjustAllEffect | src/main/java/com/realshyt/fashion/service/OrderService.java:48-52 | each existing product's stock moves by the total quantity of its lines, in `int` arithmetic; missing products are skipped; there is no sufficiency check |
| Orders.CreateOrder | src/main/java/com/realshyt/fashion/service/OrderService.java:38-57 | every item is linked to the order and its subtotal recomputed; the total is the sum of the subtotals; stock is decremented; every other field and order is unchanged |
| Orders.UpdateOrderStatus | src/main/java/com/realshyt/fashion/service/OrderService.java:59-66 | only the status of an existing order changes; an absent id fails with OrderNotFound |
| Orders.CancelOrder | src/main/java/com/realshyt/fashion/service/OrderService.java:68-83 | an absent id changes nothing; otherwise the order becomes CANCELLED and every line's quantity goes back to its product |
| Orders.CreateThenCancelRestoresStock | src/main/java/com/realshyt/fashion/service/OrderService.java:38-83 | creating an order and then cancelling it gives every product its stock back |
| Orders.CancelTwiceRestoresTwice | src/main/java/com/realshyt/fashion/service/OrderService.java:68-83 | cancelling twice restores the stock twice |
| Orders.CancelNotIdempotent | src/main/java/com/realshyt/fashion/service/OrderService.java:68-83 | a concrete order whose second cancel changes the stock again (5 → 7 → 9) |
| Products.CreateProduct | src/main/java/com/realshyt/fashion/service/ProductService.java:38-40 | the product is added under a fresh key and the others are unchanged |
| Products.DeleteProduct | src/main/java/com/realshyt/fashion/service/ProductService.java:57-59 | exactly that key is removed, and a missing key changes nothing |
| Products.DeleteUndoesCreate | src/main/java/com/realshyt/fashion/service/ProductService.java:38-59 | deleting a product just created gives the store back |
| Products.UpdateProduct | src/main/java/com/realshyt/fashion/service/ProductService.java:42-55 | the seven fields are overwritten with the given details and other products are unchanged; an absent id fails with ProductNotFound |
| Products.UpdateProductIdempotent | src/main/java/com/realshyt/fashion/service/ProductService.java:42-55 | writing the same details twice is writing them once, and writing a product's own fields back changes nothing |
| Products.UpdateStock | src/main/java/com/realshyt/fashion/service/ProductService.java:61-69 | true exactly when the product exists, in which case only its stock drops by the quantity in `int` arithmetic; false leaves the store unchanged |
| Products.UpdateStockNoLowerBound | src/main/java/com/realshyt/fashion/service/ProductService.java:61-66 | stock can go negative: taking 1 from 0 leaves −1 |
| Products.UpdateStockUndo | src/main/java/com/realshyt/fashion/service/ProductService.java:61-69 | taking a quantity and then its negation gives the stock back, `Integer.MIN_VALUE` included |
| Products.ActiveProducts | src/main/java/com/realshyt/fashion/service/ProductService.java:22-24 | exactly the products whose flag is TRUE; a null flag does not count |
| Products.ActiveAfterCreate | src/main/java/com/realshyt/fashion/service/ProductService.java:22-24 | a created product joins the active listing exactly when its flag is TRUE; the rest of the listing is unchanged |
| Products.ActiveAfterDelete | src/main/java/com/realshyt/fashion/service/ProductService.java:22-24 | a deleted product leaves the active listing and the rest of the listing is unchanged |
| Products.ActiveProductsIdempotent | src/main/java/com/realshyt/fashion/service/ProductService.java:22-24 | filtering the listing again returns it unchanged |
| Products.SearchProducts | src/main/java/com/realshyt/fashion/service/ProductService.java:34-36 | exactly the products whose upper-cased name contains the upper-cased keyword |
| Products.SearchEmptyKeyword | src/main/java/com/realshyt/fashion/service/ProductService.java:34-36 | an empty keyword finds every product |
| Products.SearchIgnoresKeywordCase | src/main/java/com/realshyt/fashion/service/ProductService.java:34-36 | the keyword's case does not change the result |

Three behaviours of the code that a reader might not expect:

- An unsupported currency code does not return the amount unchanged. It goes through the rate-1 arithmetic and is rounded to cents (`Currency.UnknownCodeToIdr`).
- A gateway reply without a token or redirect URL is not an error. The code stores null in those columns (`Gateway.GatewayResponse`).
- The update timestamp is not refreshed on every save. JPA issues no UPDATE when nothing changed, which is why a replayed notification is a no-op (`PaymentEntity.SaveUpdate`).

## Left out

- The HTTP call to the gateway is the parameter `gateway`. It stands for `callMidtransApi`: the RestTemplate exchange, the Basic-auth header and JSON parsing. Any failure there, a non-2xx status, or an empty body is the single outcome `Rejected`.
- SHA-512 and the UTF-8 encoding are the parameter `digest`. `MessageDigest.getInstance` is assumed never to throw, so the catch block of `verifySignature` is not modelled.
- Date parsing is the parameter `parse`. The model uses one clock reading `now` for both the parse fallback and `@PreUpdate`, although the code reads `LocalDateTime.now()` separately for each.
- Concurrency is not modelled: the race between `existsByOrderId` and the insert, and concurrent or reordered webhook deliveries. Each operation is one atomic step, as `@Transactional` gives for a single caller.
- `BigDecimal` scale and `BigDecimal.equals` are not modelled, because amounts are exact reals. In particular, the code's zero-rate test `toRate.equals(BigDecimal.ZERO)` is scale-sensitive, but every table rate is positive, so the test is never true.
- Ascii.Upper: only ASCII letters are upper-cased, independent of locale. Java's `toUpperCase()` uses the default locale and maps all of Unicode. Under a Turkish or Azeri locale it maps `i` to `İ`, so `isCurrencySupported("idr")` is false there but true in the model, and `convert` looks such codes up at rate 1. Product search folds case with the database's `UPPER` in the derived query, not with Java; the model uses the same ASCII folding for it, so collation-specific case rules are not modelled.
- Currency.IsCurrencySupported: the parameter is never null. The code throws NullPointerException for a null code.
- Null `totalPrice`, null item quantities, null stock and null `orderItems` are not modelled. The code would throw NullPointerException on them.
- `getAllProducts`, `getProductById`, `getProductsByCategory`, `getAllOrders`, `getOrderById`, `getOrdersByEmail` and `getOrdersByStatus` are not modelled. Each returns the repository's answer without logic of its own.
- Order.java, OrderItem.java and Product.java are not part of this model. The three entities are modelled as records of the fields the services read and write (`Entities`). CREATED, SHIPPED and DELIVERED are assumed values of the order status enum; the services themselves name only PENDING_PAYMENT, PROCESSING and CANCELLED.
- Orders.CreateOrder: the total is the sum of the subtotals that `calculateSubtotal` (a parameter) returns. The model does not relate it to `totalPrice`, which is what `createPayment` charges. They are separate columns.
- Payments.CreatePayment: the `@OneToOne` join column is not itself treated as unique. The `existsByOrderId` pre-check is what keeps one payment per order.
- Controllers, `DataInitializer` and logging are not modelled.
