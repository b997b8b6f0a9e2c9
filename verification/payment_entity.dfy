/** The Payment entity: its status enumeration, the field defaults of a new instance, the
    columns that must not be null, and the JPA lifecycle hooks that stamp its timestamps. */
module PaymentEntity {
  import opened Common
  import Entities

  /** An instant as `LocalDateTime` holds it; values are only copied and compared. */
  type DateTime = int

  datatype PaymentStatus = Pending | Processing | Success | Failed | Expired | Cancelled | Refunded

  const AllStatuses: seq<PaymentStatus> := [Pending, Processing, Success, Failed, Expired, Cancelled, Refunded]

  /** `PaymentStatus.toString()`, also the value `@Enumerated(EnumType.STRING)` stores. */
  function StatusName(s: PaymentStatus): string {
    match s
    case Pending => "PENDING"
    case Processing => "PROCESSING"
    case Success => "SUCCESS"
    case Failed => "FAILED"
    case Expired => "EXPIRED"
    case Cancelled => "CANCELLED"
    case Refunded => "REFUNDED"
  }

  /** `PaymentStatus.valueOf(name)`, which throws on any other string. */
  function ParseStatus(name: string): Option<PaymentStatus> {
    if name == "PENDING" then Some(Pending)
    else if name == "PROCESSING" then Some(Processing)
    else if name == "SUCCESS" then Some(Success)
    else if name == "FAILED" then Some(Failed)
    else if name == "EXPIRED" then Some(Expired)
    else if name == "CANCELLED" then Some(Cancelled)
    else if name == "REFUNDED" then Some(Refunded)
    else None
  }

  /** The enumeration has exactly seven values. */
  lemma SevenStatuses(s: PaymentStatus)
    ensures s in AllStatuses
    ensures |AllStatuses| == 7
    ensures forall i, j :: 0 <= i < j < |AllStatuses| ==> AllStatuses[i] != AllStatuses[j]
  {
  }

  /** The stored name reads back as the same status, and only the seven names read back. */
  lemma StatusNameRoundTrip(s: PaymentStatus, name: string)
    ensures ParseStatus(StatusName(s)) == Some(s)
    ensures ParseStatus(name) == Some(s) ==> StatusName(s) == name
  {
  }

  /** The columns of the payments table. `order` and `amount` are null on a fresh instance and
      declared NOT NULL; the row id is the key of the payment store. */
  datatype Payment = Payment(
    order: Option<Entities.Id>,
    amount: Option<real>,
    currency: string,
    status: PaymentStatus,
    paymentMethod: Option<string>,
    transactionId: Option<string>,
    midtransOrderId: Option<string>,
    snapToken: Option<string>,
    snapRedirectUrl: Option<string>,
    paymentType: Option<string>,
    transactionTime: Option<DateTime>,
    settlementTime: Option<DateTime>,
    fraudStatus: Option<string>,
    failureReason: Option<string>,
    createdAt: Option<DateTime>,
    updatedAt: Option<DateTime>)

  /** `new Payment()`: currency "IDR", status PENDING, every other field null. */
  function NewPayment(): (p: Payment)
    ensures p.currency == "IDR" && p.status == Pending
    ensures !Insertable(p)
  {
    Payment(None, None, "IDR", Pending, None, None, None, None, None, None, None, None, None, None, None, None)
  }

  /** The NOT NULL columns an insert needs besides the ones with defaults: the order
      reference, the amount, and the creation time `onCreate` supplies. */
  predicate Insertable(p: Payment) {
    p.order.Some? && p.amount.Some? && p.createdAt.Some?
  }

  /** `@PrePersist onCreate`: the clock is read twice, once for each timestamp, so the two
      readings `created` and `updated` need not agree. */
  function OnCreate(p: Payment, created: DateTime, updated: DateTime): (q: Payment)
    ensures q.createdAt == Some(created) && q.updatedAt == Some(updated)
    ensures q.(createdAt := p.createdAt, updatedAt := p.updatedAt) == p
    ensures p.order.Some? && p.amount.Some? ==> Insertable(q)
  {
    p.(createdAt := Some(created), updatedAt := Some(updated))
  }

  /** Flushing a loaded payment whose in-memory copy is `edited`: when nothing changed no
      UPDATE is issued and `@PreUpdate` does not run; otherwise `onUpdate` refreshes
      `updatedAt`, and `createdAt` keeps its stored value because the column is not updatable. */
  function SaveUpdate(stored: Payment, edited: Payment, now: DateTime): (r: Payment)
    ensures edited == stored ==> r == stored
    ensures edited != stored ==> r.updatedAt == Some(now)
    ensures r.createdAt == stored.createdAt
    ensures r.(createdAt := edited.createdAt, updatedAt := edited.updatedAt) == edited
  {
    if edited == stored then stored
    else edited.(createdAt := stored.createdAt, updatedAt := Some(now))
  }
}
