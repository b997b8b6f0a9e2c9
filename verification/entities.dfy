/** The Order, OrderItem and Product entities, modelled as records of the fields the services
    read and write; identifiers are the keys of the stores. */
module Entities {
  import opened Common
  import opened JavaNum

  /** A `Long` primary key. */
  type Id = int

  /** The order lifecycle; the payment services write only PendingPayment, Processing and Cancelled. */
  datatype OrderStatus = Created | PendingPayment | Processing | Shipped | Delivered | Cancelled

  /** One line of an order. `order` is the back-reference `setOrder` fills in; `price` is the
      unit price in the order's currency; `subtotal` is what `calculateSubtotal` stored. */
  datatype OrderItem = OrderItem(
    productId: Id,
    quantity: Int32,
    price: real,
    subtotal: real,
    order: Option<Id>)

  /** `totalAmount` is written when the order is created; `totalPrice` is what the payment
      service charges. They are separate columns and nothing here links them. */
  datatype Order = Order(
    items: seq<OrderItem>,
    totalAmount: real,
    totalPrice: real,
    currency: Option<string>,
    status: OrderStatus)

  /** A catalogue entry; `isActive` is a nullable Boolean. */
  datatype Product = Product(
    name: string,
    price: real,
    description: string,
    imageUrl: string,
    category: string,
    stockQuantity: Int32,
    isActive: Option<bool>)
}
