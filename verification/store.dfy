/** The three repositories as maps from primary key to row. */
module Store {
  import Entities
  import PaymentEntity

  datatype Db = Db(
    orders: map<Entities.Id, Entities.Order>,
    payments: map<Entities.Id, PaymentEntity.Payment>,
    products: map<Entities.Id, Entities.Product>)
}
