/**
  The records of the payment module: payment collections, the payment
  sessions opened against them, the payments an authorization produces and
  the capture and refund entries appended to a payment. The whole module's
  persistent state is a `Store` of id-keyed maps, and `Valid` is the link
  structure every service operation keeps.
 */
module PaymentModel {
  import opened Results

  type Id = string

  datatype CollectionStatus =
    | NotPaid
    | Awaiting
    | Authorized
    | PartiallyAuthorized
    | Completed
    | Canceled

  datatype SessionStatus = Pending | SessionAuthorized | SessionCanceled | SessionError

  /** A payment collection. Timestamps are modelled by whether they are set. */
  datatype PaymentCollection = PaymentCollection(
    id: Id,
    currencyCode: string,
    amount: nat,
    regionId: string,
    status: CollectionStatus,
    paymentProviders: seq<string>,
    sessionIds: seq<Id>,
    paymentIds: seq<Id>,
    completedAt: bool)

  /** One provider-bound attempt to collect funds for a collection. */
  datatype PaymentSession = PaymentSession(
    id: Id,
    collectionId: Id,
    providerId: string,
    currencyCode: string,
    amount: nat,
    status: SessionStatus,
    authorizedAt: bool,
    paymentId: Option<Id>)

  /** A capture or a refund entry; `createdBy` is the acting user, if any. */
  datatype LedgerEntry = LedgerEntry(amount: nat, createdBy: Option<string>)

  /** The payment an authorized session produced, with its ledger. */
  datatype Payment = Payment(
    id: Id,
    collectionId: Id,
    sessionId: Id,
    providerId: string,
    currencyCode: string,
    amount: nat,
    authorizedAmount: nat,
    cartId: Option<string>,
    orderId: Option<string>,
    orderEditId: Option<string>,
    customerId: Option<string>,
    capturedAt: bool,
    canceledAt: bool,
    captures: seq<LedgerEntry>,
    refunds: seq<LedgerEntry>)

  /** The module's state; `order` lists collection ids in insertion order. */
  datatype Store = Store(
    collections: map<Id, PaymentCollection>,
    sessions: map<Id, PaymentSession>,
    payments: map<Id, Payment>,
    order: seq<Id>)

  const EmptyStore := Store(map[], map[], map[], [])

  /** The errors the service raises, each with the message callers match on. */
  datatype PaymentError =
    | MissingField(entity: string, field: string)
    | NotFound(entity: string, id: Id)
    | DuplicateId(entity: string, id: Id)
    | NotPending(id: Id)
  {
    function Message(): string {
      match this
      case MissingField(entity, field) =>
        "Value for " + entity + "." + field + " is required, 'undefined' found"
      case NotFound(entity, id) =>
        entity + " with id: " + id + " was not found"
      case DuplicateId(entity, id) =>
        entity + " with id: " + id + " already exists"
      case NotPending(id) =>
        "PaymentSession with id: " + id + " is not pending"
    }
  }

  predicate NoDuplicates<T(==)>(xs: seq<T>) {
    forall i, j :: 0 <= i < j < |xs| ==> xs[i] != xs[j]
  }

  /** `order` lists every collection id exactly once and nothing else. */
  predicate OrderExact(s: Store) {
    && NoDuplicates(s.order)
    && (forall i :: 0 <= i < |s.order| ==> s.order[i] in s.collections)
    && (forall k :: k in s.collections ==> k in s.order)
  }

  predicate CollectionLinked(s: Store, k: Id)
    requires k in s.collections
  {
    var c := s.collections[k];
    && c.id == k
    && (forall sid :: sid in c.sessionIds ==> sid in s.sessions && s.sessions[sid].collectionId == k)
    && (forall pid :: pid in c.paymentIds ==> pid in s.payments && s.payments[pid].collectionId == k)
  }

  /** A session is authorized exactly when it has produced a payment. */
  predicate SessionLinked(s: Store, k: Id)
    requires k in s.sessions
  {
    var x := s.sessions[k];
    && x.id == k
    && x.collectionId in s.collections
    && k in s.collections[x.collectionId].sessionIds
    && (x.status == SessionAuthorized <==> x.paymentId.Some?)
    && (x.authorizedAt <==> x.status == SessionAuthorized)
    && (x.paymentId.Some? ==> x.paymentId.value in s.payments && s.payments[x.paymentId.value].sessionId == k)
  }

  /** A payment belongs to its session's collection and keeps the session's amount. */
  predicate PaymentLinked(s: Store, k: Id)
    requires k in s.payments
  {
    var p := s.payments[k];
    && p.id == k
    && p.collectionId in s.collections
    && k in s.collections[p.collectionId].paymentIds
    && p.sessionId in s.sessions
    && s.sessions[p.sessionId].paymentId == Some(k)
    && s.sessions[p.sessionId].collectionId == p.collectionId
    && p.authorizedAmount == s.sessions[p.sessionId].amount
    && p.currencyCode == s.sessions[p.sessionId].currencyCode
  }

  predicate Valid(s: Store) {
    && OrderExact(s)
    && (forall k :: k in s.collections ==> CollectionLinked(s, k))
    && (forall k :: k in s.sessions ==> SessionLinked(s, k))
    && (forall k :: k in s.payments ==> PaymentLinked(s, k))
  }
}
