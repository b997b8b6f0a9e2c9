/** The webhook body and its authentication: the signature is the lower-case hex of
    SHA-512 over `order_id + status_code + gross_amount + serverKey`. The digest (SHA-512
    of the UTF-8 bytes) is a parameter of the model. */
module Signature {
  import opened Common
  import opened Hex

  /** The notification body; every field is null when the JSON omits it. */
  datatype MidtransNotification = MidtransNotification(
    orderId: Option<string>,
    transactionStatus: Option<string>,
    paymentType: Option<string>,
    fraudStatus: Option<string>,
    transactionTime: Option<string>,
    settlementTime: Option<string>,
    statusCode: Option<string>,
    grossAmount: Option<string>,
    statusMessage: Option<string>,
    signatureKey: Option<string>)

  /** A string operand of Java's `+`: null is appended as the text "null". */
  function Text(s: Option<string>): string {
    match s
    case None => "null"
    case Some(t) => t
  }

  /** The signed string. */
  function SignaturePayload(n: MidtransNotification, serverKey: string): string {
    Text(n.orderId) + Text(n.statusCode) + Text(n.grossAmount) + serverKey
  }

  /** The expected signature equals the received one (`equals(null)` is false). */
  predicate SignatureValid(n: MidtransNotification, serverKey: string, digest: string -> seq<JByte>) {
    n.signatureKey == Some(HexOf(digest(SignaturePayload(n, serverKey))))
  }

  /** `verifySignature`: hashes the payload, hex-encodes it byte by byte and compares. A
      signature is accepted exactly when it is the canonical encoding of the digest. */
  method VerifySignature(n: MidtransNotification, serverKey: string, digest: string -> seq<JByte>)
    returns (ok: bool)
    ensures ok <==> SignatureValid(n, serverKey, digest)
    ensures ok <==> n.signatureKey.Some? && HexDecode(n.signatureKey.value) == Some(digest(SignaturePayload(n, serverKey)))
  {
    var hash := digest(SignaturePayload(n, serverKey));
    var hex := HexEncode(hash);
    ok := n.signatureKey == Some(hex);
    if n.signatureKey.Some? {
      HexEqualIffDecodes(n.signatureKey.value, hash);
    }
  }

  /** The comparison is case-sensitive: a signature with an upper-case hex digit never matches. */
  lemma UpperCaseSignatureRejected(n: MidtransNotification, serverKey: string, digest: string -> seq<JByte>, i: nat)
    requires n.signatureKey.Some? && i < |n.signatureKey.value|
    requires 'A' <= n.signatureKey.value[i] <= 'F'
    ensures !SignatureValid(n, serverKey, digest)
  {
    HexOfShape(digest(SignaturePayload(n, serverKey)));
  }

  /** A signature of the wrong length never matches: the hex of a digest has two characters per byte. */
  lemma WrongLengthRejected(n: MidtransNotification, serverKey: string, digest: string -> seq<JByte>)
    requires n.signatureKey.Some?
    requires |n.signatureKey.value| != 2 * |digest(SignaturePayload(n, serverKey))|
    ensures !SignatureValid(n, serverKey, digest)
  {
    HexOfShape(digest(SignaturePayload(n, serverKey)));
  }

  /** The three fields are joined without separators, so the signature binds only their
      concatenation: moving characters between "order_id" and "status_code" keeps a
      signature valid, whatever the digest. */
  lemma FieldBoundariesNotSigned(n: MidtransNotification, serverKey: string, digest: string -> seq<JByte>)
    requires n.orderId == Some("ORDER-1-1700000000000") && n.statusCode == Some("200")
    ensures var m := n.(orderId := Some("ORDER-1-17000000000002"), statusCode := Some("00"));
      m != n && (SignatureValid(m, serverKey, digest) <==> SignatureValid(n, serverKey, digest))
  {
    var m := n.(orderId := Some("ORDER-1-17000000000002"), statusCode := Some("00"));
    assert Text(m.orderId) + Text(m.statusCode) == Text(n.orderId) + Text(n.statusCode);
    assert SignaturePayload(m, serverKey) == SignaturePayload(n, serverKey);
  }

  /** A missing field signs like the literal text "null". */
  lemma NullFieldSignsAsText(n: MidtransNotification, serverKey: string, digest: string -> seq<JByte>)
    requires n.grossAmount.None?
    ensures SignatureValid(n.(grossAmount := Some("null")), serverKey, digest) <==> SignatureValid(n, serverKey, digest)
  {
    assert SignaturePayload(n.(grossAmount := Some("null")), serverKey) == SignaturePayload(n, serverKey);
  }
}
