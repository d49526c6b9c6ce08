/**
  The payment module's service operations as pure transitions of a `Store`.
  Every mutating operation returns either the error the service raises or
  the new store together with the record the service hands back. Fresh ids
  are parameters: id generation belongs to the persistence layer, which
  also refuses a primary key that is already taken (`DuplicateId`).
 */
module PaymentService {
  import opened Results
  import opened PaymentModel

  const CollectionEntity := "PaymentCollection"
  const SessionEntity := "PaymentSession"
  const PaymentEntity := "Payment"

  /** The fields of `createPaymentCollections`; `None` is a missing field. */
  datatype CollectionInput = CollectionInput(
    currencyCode: Option<string>,
    amount: Option<nat>,
    regionId: Option<string>)

  /** A partial update: `None` leaves the field as it is. */
  datatype CollectionPatch = CollectionPatch(
    id: Id,
    currencyCode: Option<string>,
    amount: Option<nat>,
    regionId: Option<string>)

  /** The part of the provider context the module itself stores. */
  datatype ProviderContext = ProviderContext(amount: nat, currencyCode: string)

  datatype SessionInput = SessionInput(providerId: string, context: ProviderContext)

  datatype PaymentPatch = PaymentPatch(
    id: Id,
    cartId: Option<string>,
    orderId: Option<string>,
    orderEditId: Option<string>,
    customerId: Option<string>)

  /** The argument of `capturePayment` and `refundPayment`. */
  datatype LedgerInput = LedgerInput(paymentId: Id, amount: nat, actor: Option<string>)

  /** A listing filter; every field that is present must match. */
  datatype Filter = Filter(
    ids: Option<set<Id>>,
    regionId: Option<string>,
    currencyCode: Option<string>)

  const NoFilter := Filter(None, None, None)

  type StoreResult<T> = Result<(Store, T), PaymentError>

  function Patched<T>(field: Option<T>, current: T): T {
    if field.Some? then field.value else current
  }

  function PatchedOption<T>(field: Option<T>, current: Option<T>): Option<T> {
    if field.Some? then field else current
  }

  predicate HasRequiredFields(input: CollectionInput) {
    input.currencyCode.Some? && input.amount.Some? && input.regionId.Some?
  }

  // ---------------------------------------------------------------- collections

  /** `createPaymentCollections` for one collection. */
  function CreateCollection(s: Store, id: Id, input: CollectionInput): (r: StoreResult<PaymentCollection>)
    ensures input.currencyCode.None? ==> r == Err(MissingField(CollectionEntity, "currency_code"))
    ensures input.currencyCode.Some? && input.amount.None? ==> r == Err(MissingField(CollectionEntity, "amount"))
    ensures input.currencyCode.Some? && input.amount.Some? && input.regionId.None? ==>
              r == Err(MissingField(CollectionEntity, "region_id"))
    ensures r.Ok? <==> HasRequiredFields(input) && id !in s.collections
    ensures r.Ok? ==>
              var t, c := r.value.0, r.value.1;
              && c.id == id
              && c.status == NotPaid
              && c.paymentProviders == [] && c.sessionIds == [] && c.paymentIds == []
              && !c.completedAt
              && c.currencyCode == input.currencyCode.value
              && c.amount == input.amount.value
              && c.regionId == input.regionId.value
              && t.collections == s.collections[id := c]
              && t.sessions == s.sessions && t.payments == s.payments
              && t.order == s.order + [id]
  {
    if input.currencyCode.None? then Err(MissingField(CollectionEntity, "currency_code"))
    else if input.amount.None? then Err(MissingField(CollectionEntity, "amount"))
    else if input.regionId.None? then Err(MissingField(CollectionEntity, "region_id"))
    else if id in s.collections then Err(DuplicateId(CollectionEntity, id))
    else
      var c := PaymentCollection(id, input.currencyCode.value, input.amount.value, input.regionId.value,
                                 NotPaid, [], [], [], false);
      Ok((s.(collections := s.collections[id := c], order := s.order + [id]), c))
  }

  /** The first required field, in validation order, that `input` lacks. */
  function FirstMissingField(input: CollectionInput): string {
    if input.currencyCode.None? then "currency_code"
    else if input.amount.None? then "amount"
    else "region_id"
  }

  /** The ids of a batch, in order. */
  function BatchIds(items: seq<(Id, CollectionInput)>): seq<Id> {
    seq(|items|, i requires 0 <= i < |items| => items[i].0)
  }

  /** The collection stored for a complete entry: `not_paid`, with nothing attached yet. */
  predicate IsNewCollection(c: PaymentCollection, id: Id, input: CollectionInput) {
    && HasRequiredFields(input)
    && c.id == id
    && c.status == NotPaid
    && c.currencyCode == input.currencyCode.value
    && c.amount == input.amount.value
    && c.regionId == input.regionId.value
    && c.paymentProviders == [] && c.sessionIds == [] && c.paymentIds == []
    && !c.completedAt
  }

  /** Every entry is complete, its id is not taken, and no id repeats. */
  predicate BatchAccepted(s: Store, items: seq<(Id, CollectionInput)>) {
    && (forall i :: 0 <= i < |items| ==> HasRequiredFields(items[i].1) && items[i].0 !in s.collections)
    && NoDuplicates(BatchIds(items))
  }

  /**
    `t` is `s` with one new collection `cs[i]` per entry, stored under the
    entry's id and appended to the insertion order; nothing else changes.
   */
  ghost predicate BatchStored(s: Store, items: seq<(Id, CollectionInput)>, t: Store, cs: seq<PaymentCollection>) {
    && |cs| == |items|
    && t.sessions == s.sessions && t.payments == s.payments
    && t.order == s.order + BatchIds(items)
    && (forall k :: k in t.collections <==> k in s.collections || k in BatchIds(items))
    && (forall k :: k in s.collections ==> t.collections[k] == s.collections[k])
    && (forall i :: 0 <= i < |items| ==>
          && items[i].0 in t.collections
          && t.collections[items[i].0] == cs[i]
          && IsNewCollection(cs[i], items[i].0, items[i].1))
  }

  /**
    `createPaymentCollections` for a batch. The batch runs in one
    transaction: the first failing entry aborts it and nothing is stored.
   */
  function CreateCollections(s: Store, items: seq<(Id, CollectionInput)>): (r: StoreResult<seq<PaymentCollection>>)
    ensures r.Ok? <==> BatchAccepted(s, items)
    ensures r.Ok? ==> BatchStored(s, items, r.value.0, r.value.1)
    ensures items != [] && !HasRequiredFields(items[0].1) ==>
              r == Err(MissingField(CollectionEntity, FirstMissingField(items[0].1)))
    ensures r.Err? ==> r.error.MissingField? || r.error.DuplicateId?
    decreases |items|
  {
    if items == [] then
      assert BatchIds(items) == [];
      Ok((s, []))
    else
      match CreateCollection(s, items[0].0, items[0].1)
      case Err(e) =>
        assert !BatchAccepted(s, items) by {
          if HasRequiredFields(items[0].1) {
            assert items[0].0 in s.collections;
          }
        }
        Err(e)
      case Ok((s1, c)) =>
        var rest := CreateCollections(s1, items[1..]);
        BatchAcceptedCons(s, s1, items);
        if rest.Err? then Err(rest.error)
        else
          BatchStoredCons(s, s1, items, c, rest.value.0, rest.value.1);
          Ok((rest.value.0, [c] + rest.value.1))
  }

  lemma BatchIdsCons(items: seq<(Id, CollectionInput)>)
    requires items != []
    ensures BatchIds(items) == [items[0].0] + BatchIds(items[1..])
  {
    assert BatchIds(items)[1..] == BatchIds(items[1..]);
  }

  /** A batch is accepted when its first entry is and the rest is, once that entry's id is taken. */
  lemma BatchAcceptedCons(s: Store, s1: Store, items: seq<(Id, CollectionInput)>)
    requires items != []
    requires s1.collections.Keys == s.collections.Keys + {items[0].0}
    ensures BatchAccepted(s, items) <==>
              && HasRequiredFields(items[0].1) && items[0].0 !in s.collections
              && BatchAccepted(s1, items[1..])
  {
    var ids, rest := BatchIds(items), BatchIds(items[1..]);
    BatchIdsCons(items);
    assert NoDuplicates(ids) <==> items[0].0 !in rest && NoDuplicates(rest) by {
      if NoDuplicates(ids) {
        forall j | 0 <= j < |rest|
          ensures rest[j] != items[0].0
        {
          assert rest[j] == ids[j + 1] && ids[0] == items[0].0;
        }
        forall i, j | 0 <= i < j < |rest|
          ensures rest[i] != rest[j]
        {
          assert rest[i] == ids[i + 1] && rest[j] == ids[j + 1];
        }
      }
    }
    if HasRequiredFields(items[0].1) && items[0].0 !in s.collections && NoDuplicates(ids) {
      forall i | 0 <= i < |items[1..]|
        ensures items[1..][i].0 != items[0].0
      {
        assert items[1..][i].0 == rest[i];
      }
    }
    if BatchAccepted(s1, items[1..]) && HasRequiredFields(items[0].1) && items[0].0 !in s.collections {
      forall i | 0 <= i < |items|
        ensures HasRequiredFields(items[i].1) && items[i].0 !in s.collections
      {
        if i > 0 {
          assert items[i] == items[1..][i - 1];
        }
      }
    }
  }

  /** Storing the first entry and then the rest stores the whole batch. */
  lemma BatchStoredCons(s: Store, s1: Store, items: seq<(Id, CollectionInput)>, c: PaymentCollection,
                        t: Store, cs: seq<PaymentCollection>)
    requires items != []
    requires CreateCollection(s, items[0].0, items[0].1) == Ok((s1, c))
    requires BatchAccepted(s1, items[1..])
    requires BatchStored(s1, items[1..], t, cs)
    ensures BatchStored(s, items, t, [c] + cs)
  {
    BatchIdsCons(items);
    assert t.order == s.order + BatchIds(items);
    forall i | 0 <= i < |items|
      ensures && items[i].0 in t.collections
              && t.collections[items[i].0] == ([c] + cs)[i]
              && IsNewCollection(([c] + cs)[i], items[i].0, items[i].1)
    {
      if i == 0 {
        assert items[0].0 !in BatchIds(items[1..]) by {
          forall j | 0 <= j < |items[1..]|
            ensures BatchIds(items[1..])[j] != items[0].0
          {
            assert BatchIds(items[1..])[j] == items[1..][j].0 && items[1..][j].0 !in s1.collections;
          }
        }
      } else {
        assert items[i] == items[1..][i - 1];
      }
    }
  }

  /** `retrievePaymentCollection`. */
  function Retrieve(s: Store, id: Id): (r: Result<PaymentCollection, PaymentError>)
    ensures r.Ok? <==> id in s.collections
    ensures r.Ok? ==> r.value == s.collections[id]
    ensures r.Err? ==> r.error.Message() == "PaymentCollection with id: " + id + " was not found"
  {
    if id in s.collections then Ok(s.collections[id]) else Err(NotFound(CollectionEntity, id))
  }

  predicate Matches(c: PaymentCollection, f: Filter) {
    && (f.ids.None? || c.id in f.ids.value)
    && (f.regionId.None? || c.regionId == f.regionId.value)
    && (f.currencyCode.None? || c.currencyCode == f.currencyCode.value)
  }

  /** The collections named by `order` that exist and match, in that order. */
  function ListFrom(cols: map<Id, PaymentCollection>, order: seq<Id>, f: Filter): (r: seq<PaymentCollection>)
    ensures |r| <= |order|
    ensures forall i :: 0 <= i < |r| ==> Matches(r[i], f) && r[i] in cols.Values
    ensures forall k :: k in order && k in cols && Matches(cols[k], f) ==> cols[k] in r
  {
    if order == [] then []
    else
      var rest := ListFrom(cols, order[1..], f);
      assert forall k :: k in order ==> k == order[0] || k in order[1..];
      if order[0] in cols && Matches(cols[order[0]], f) then [cols[order[0]]] + rest else rest
  }

  /** `listPaymentCollections`: every stored collection that matches, in insertion order. */
  function List(s: Store, f: Filter): (r: seq<PaymentCollection>)
    ensures forall i :: 0 <= i < |r| ==> Matches(r[i], f) && r[i] in s.collections.Values
    ensures OrderExact(s) ==>
              forall k :: k in s.collections && Matches(s.collections[k], f) ==> s.collections[k] in r
  {
    ListFrom(s.collections, s.order, f)
  }

  /** The ids of the stored collections that match `f`. */
  function MatchingIds(s: Store, f: Filter): set<Id> {
    set k | k in s.collections && Matches(s.collections[k], f)
  }

  /** `listAndCountPaymentCollections`: the listing and how many collections match. */
  function ListAndCount(s: Store, f: Filter): (r: (seq<PaymentCollection>, nat))
    ensures r.1 == |r.0|
    ensures forall i :: 0 <= i < |r.0| ==> Matches(r.0[i], f) && r.0[i] in s.collections.Values
    ensures OrderExact(s) ==> r.1 == |MatchingIds(s, f)|
    ensures OrderExact(s) ==>
              forall k :: k in s.collections && Matches(s.collections[k], f) ==> s.collections[k] in r.0
  {
    var listed := List(s, f);
    assert OrderExact(s) ==> |listed| == |MatchingIds(s, f)| by {
      if OrderExact(s) {
        ListCountsMatches(s, f);
      }
    }
    (listed, |listed|)
  }

  /** Over an insertion order without repeats, the listing has one entry per matching id. */
  lemma {:induction false} ListFromCount(cols: map<Id, PaymentCollection>, order: seq<Id>, f: Filter)
    requires NoDuplicates(order)
    ensures |ListFrom(cols, order, f)| == |set k | k in order && k in cols && Matches(cols[k], f)|
  {
    if order != [] {
      var h, rest := order[0], order[1..];
      assert NoDuplicates(rest) by {
        forall i, j | 0 <= i < j < |rest|
          ensures rest[i] != rest[j]
        {
          assert rest[i] == order[i + 1] && rest[j] == order[j + 1];
        }
      }
      ListFromCount(cols, rest, f);
      var all := set k | k in order && k in cols && Matches(cols[k], f);
      var tail := set k | k in rest && k in cols && Matches(cols[k], f);
      assert h !in rest by {
        forall j | 0 <= j < |rest|
          ensures rest[j] != h
        {
          assert rest[j] == order[j + 1];
        }
      }
      assert forall k :: k in order <==> k == h || k in rest;
      if h in cols && Matches(cols[h], f) {
        assert all == tail + {h};
      } else {
        assert all == tail;
      }
    }
  }

  lemma ListCountsMatches(s: Store, f: Filter)
    requires OrderExact(s)
    ensures |List(s, f)| == |MatchingIds(s, f)|
  {
    ListFromCount(s.collections, s.order, f);
    assert (set k | k in s.order && k in s.collections && Matches(s.collections[k], f)) == MatchingIds(s, f);
  }

  /** `updatePaymentCollections`: only the fields present in the patch change. */
  function UpdateCollection(s: Store, patch: CollectionPatch): (r: StoreResult<PaymentCollection>)
    ensures r.Ok? <==> patch.id in s.collections
    ensures r.Err? ==> r.error == NotFound(CollectionEntity, patch.id)
    ensures r.Ok? ==>
              var t, c, prior := r.value.0, r.value.1, s.collections[patch.id];
              && c.currencyCode == (if patch.currencyCode.Some? then patch.currencyCode.value else prior.currencyCode)
              && c.amount == (if patch.amount.Some? then patch.amount.value else prior.amount)
              && c.regionId == (if patch.regionId.Some? then patch.regionId.value else prior.regionId)
              && c.(currencyCode := prior.currencyCode, amount := prior.amount, regionId := prior.regionId) == prior
              && t == s.(collections := s.collections[patch.id := c])
  {
    if patch.id !in s.collections then Err(NotFound(CollectionEntity, patch.id))
    else
      var prior := s.collections[patch.id];
      var c := prior.(currencyCode := Patched(patch.currencyCode, prior.currencyCode),
                      amount := Patched(patch.amount, prior.amount),
                      regionId := Patched(patch.regionId, prior.regionId));
      Ok((s.(collections := s.collections[patch.id := c]), c))
  }

  /** `completePaymentCollections`: marks the collection completed, nothing else. */
  function CompleteCollection(s: Store, id: Id): (r: StoreResult<PaymentCollection>)
    ensures r.Ok? <==> id in s.collections
    ensures r.Err? ==> r.error == NotFound(CollectionEntity, id)
    ensures r.Ok? ==>
              var t, c := r.value.0, r.value.1;
              && c.completedAt
              && c.(completedAt := s.collections[id].completedAt) == s.collections[id]
              && t == s.(collections := s.collections[id := c])
  {
    if id !in s.collections then Err(NotFound(CollectionEntity, id))
    else
      var c := s.collections[id].(completedAt := true);
      Ok((s.(collections := s.collections[id := c]), c))
  }

  /** `order` without the ids in `gone`, order otherwise kept. */
  function Without(order: seq<Id>, gone: seq<Id>): (r: seq<Id>)
    ensures forall x :: x in r <==> x in order && x !in gone
    ensures NoDuplicates(order) ==> NoDuplicates(r)
  {
    if order == [] then []
    else
      var rest := Without(order[1..], gone);
      assert forall x :: x in order <==> x == order[0] || x in order[1..];
      if order[0] in gone then rest
      else
        assert NoDuplicates(order) ==> order[0] !in order[1..];
        [order[0]] + rest
  }

  /**
    `deletePaymentCollections`: removes the collections and, with them, the
    sessions and payments they own. Ids that are not stored are ignored.
   */
  function DeleteCollections(s: Store, ids: seq<Id>): (t: Store)
    ensures forall k :: k in t.collections <==> k in s.collections && k !in ids
    ensures forall k :: k in t.collections ==> t.collections[k] == s.collections[k]
    ensures forall k :: k in t.sessions <==> k in s.sessions && s.sessions[k].collectionId !in ids
    ensures forall k :: k in t.sessions ==> t.sessions[k] == s.sessions[k]
    ensures forall k :: k in t.payments <==> k in s.payments && s.payments[k].collectionId !in ids
    ensures forall k :: k in t.payments ==> t.payments[k] == s.payments[k]
    ensures forall k :: k in t.order <==> k in s.order && k !in ids
  {
    Store(
      map k | k in s.collections && k !in ids :: s.collections[k],
      map k | k in s.sessions && s.sessions[k].collectionId !in ids :: s.sessions[k],
      map k | k in s.payments && s.payments[k].collectionId !in ids :: s.payments[k],
      Without(s.order, ids))
  }

  // ------------------------------------------------------------------- sessions

  /** `createPaymentSession`: a pending session priced from the provider context. */
  function CreateSession(s: Store, collectionId: Id, sessionId: Id, input: SessionInput): (r: StoreResult<PaymentSession>)
    ensures r.Ok? <==> collectionId in s.collections && sessionId !in s.sessions
    ensures collectionId !in s.collections ==> r == Err(NotFound(CollectionEntity, collectionId))
    ensures r.Ok? ==>
              var t, x, c := r.value.0, r.value.1, s.collections[collectionId];
              && x.id == sessionId
              && x.collectionId == collectionId
              && x.providerId == input.providerId
              && x.status == Pending && !x.authorizedAt && x.paymentId == None
              && x.amount == input.context.amount
              && x.currencyCode == input.context.currencyCode
              && t.sessions == s.sessions[sessionId := x]
              && t.collections == s.collections[collectionId := c.(sessionIds := c.sessionIds + [sessionId])]
              && t.payments == s.payments && t.order == s.order
  {
    if collectionId !in s.collections then Err(NotFound(CollectionEntity, collectionId))
    else if sessionId in s.sessions then Err(DuplicateId(SessionEntity, sessionId))
    else
      var c := s.collections[collectionId];
      var x := PaymentSession(sessionId, collectionId, input.providerId, input.context.currencyCode,
                              input.context.amount, Pending, false, None);
      Ok((s.(sessions := s.sessions[sessionId := x],
             collections := s.collections[collectionId := c.(sessionIds := c.sessionIds + [sessionId])]), x))
  }

  /**
    `updatePaymentSession`: a pending session takes the amount and currency
    of the new provider context; any other session is refused.
   */
  function UpdateSession(s: Store, sessionId: Id, context: ProviderContext): (r: StoreResult<PaymentSession>)
    ensures r.Ok? <==> sessionId in s.sessions && s.sessions[sessionId].status == Pending
    ensures sessionId !in s.sessions ==> r == Err(NotFound(SessionEntity, sessionId))
    ensures sessionId in s.sessions && s.sessions[sessionId].status != Pending ==> r == Err(NotPending(sessionId))
    ensures r.Ok? ==>
              var t, x, prior := r.value.0, r.value.1, s.sessions[sessionId];
              && x.status == Pending
              && x.currencyCode == context.currencyCode
              && x.amount == context.amount
              && x.(currencyCode := prior.currencyCode, amount := prior.amount) == prior
              && t == s.(sessions := s.sessions[sessionId := x])
  {
    if sessionId !in s.sessions then Err(NotFound(SessionEntity, sessionId))
    else
      var prior := s.sessions[sessionId];
      if prior.status != Pending then Err(NotPending(sessionId))
      else
        var x := prior.(currencyCode := context.currencyCode, amount := context.amount);
        Ok((s.(sessions := s.sessions[sessionId := x]), x))
  }

  /**
    `authorizePaymentSession`. The provider is taken to authorize. A pending
    session becomes authorized and produces exactly one payment for the
    session's amount; a session that is already authorized returns the
    payment it produced before and changes nothing.
   */
  function Authorize(s: Store, sessionId: Id, paymentId: Id): (r: StoreResult<Payment>)
    ensures sessionId !in s.sessions ==> r == Err(NotFound(SessionEntity, sessionId))
    ensures r.Ok? && s.sessions[sessionId].status == SessionAuthorized ==>
              var x := s.sessions[sessionId];
              && r.value.0 == s
              && x.paymentId.Some? && x.paymentId.value in s.payments
              && r.value.1 == s.payments[x.paymentId.value]
    ensures r.Ok? && s.sessions[sessionId].status != SessionAuthorized ==>
              var t, p, x := r.value.0, r.value.1, s.sessions[sessionId];
              && x.status == Pending
              && x.collectionId in s.collections
              && paymentId !in s.payments
              && p.id == paymentId
              && p.amount == x.amount && p.authorizedAmount == x.amount
              && p.currencyCode == x.currencyCode && p.providerId == x.providerId
              && p.sessionId == sessionId && p.collectionId == x.collectionId
              && p.captures == [] && p.refunds == []
              && !p.capturedAt && !p.canceledAt
              && p.cartId.None? && p.orderId.None? && p.orderEditId.None? && p.customerId.None?
              && t.payments == s.payments[paymentId := p]
              && t.sessions == s.sessions[sessionId := x.(status := SessionAuthorized, authorizedAt := true,
                                                          paymentId := Some(paymentId))]
              && t.collections == s.collections[x.collectionId := s.collections[x.collectionId].(
                                     paymentIds := s.collections[x.collectionId].paymentIds + [paymentId])]
              && t.order == s.order
    ensures Valid(s) && sessionId in s.sessions && s.sessions[sessionId].status == Pending ==>
              (r.Ok? <==> paymentId !in s.payments)
    ensures Valid(s) && sessionId in s.sessions && s.sessions[sessionId].status == SessionAuthorized ==> r.Ok?
  {
    if sessionId !in s.sessions then Err(NotFound(SessionEntity, sessionId))
    else
      var x := s.sessions[sessionId];
      if x.status == SessionAuthorized then
        if x.paymentId.Some? && x.paymentId.value in s.payments then Ok((s, s.payments[x.paymentId.value]))
        else Err(NotFound(PaymentEntity, sessionId))
      else if x.status != Pending then Err(NotPending(sessionId))
      else if paymentId in s.payments then Err(DuplicateId(PaymentEntity, paymentId))
      else if x.collectionId !in s.collections then Err(NotFound(CollectionEntity, x.collectionId))
      else
        var c := s.collections[x.collectionId];
        var p := Payment(paymentId, x.collectionId, sessionId, x.providerId, x.currencyCode,
                         x.amount, x.amount, None, None, None, None, false, false, [], []);
        Ok((s.(payments := s.payments[paymentId := p],
               sessions := s.sessions[sessionId := x.(status := SessionAuthorized, authorizedAt := true,
                                                      paymentId := Some(paymentId))],
               collections := s.collections[x.collectionId := c.(paymentIds := c.paymentIds + [paymentId])]), p))
  }

  // ------------------------------------------------------------------- payments

  /** `updatePayment`: sets the references present in the patch, nothing else. */
  function UpdatePayment(s: Store, patch: PaymentPatch): (r: StoreResult<Payment>)
    ensures r.Ok? <==> patch.id in s.payments
    ensures r.Err? ==> r.error == NotFound(PaymentEntity, patch.id)
    ensures r.Ok? ==>
              var t, p, prior := r.value.0, r.value.1, s.payments[patch.id];
              && (patch.cartId.Some? ==> p.cartId == patch.cartId)
              && (patch.orderId.Some? ==> p.orderId == patch.orderId)
              && (patch.orderEditId.Some? ==> p.orderEditId == patch.orderEditId)
              && (patch.customerId.Some? ==> p.customerId == patch.customerId)
              && p.(cartId := PatchedOption(patch.cartId, prior.cartId),
                    orderId := PatchedOption(patch.orderId, prior.orderId),
                    orderEditId := PatchedOption(patch.orderEditId, prior.orderEditId),
                    customerId := PatchedOption(patch.customerId, prior.customerId)) == p
              && p.(cartId := prior.cartId, orderId := prior.orderId,
                    orderEditId := prior.orderEditId, customerId := prior.customerId) == prior
              && t == s.(payments := s.payments[patch.id := p])
  {
    if patch.id !in s.payments then Err(NotFound(PaymentEntity, patch.id))
    else
      var prior := s.payments[patch.id];
      var p := prior.(cartId := PatchedOption(patch.cartId, prior.cartId),
                      orderId := PatchedOption(patch.orderId, prior.orderId),
                      orderEditId := PatchedOption(patch.orderEditId, prior.orderEditId),
                      customerId := PatchedOption(patch.customerId, prior.customerId));
      Ok((s.(payments := s.payments[patch.id := p]), p))
  }

  /** `capturePayment`: appends one capture entry; the payment's amount stays. */
  function Capture(s: Store, input: LedgerInput): (r: StoreResult<Payment>)
    ensures r.Ok? <==> input.paymentId in s.payments
    ensures r.Err? ==> r.error == NotFound(PaymentEntity, input.paymentId)
    ensures r.Ok? ==>
              var t, p, prior := r.value.0, r.value.1, s.payments[input.paymentId];
              && |p.captures| == |prior.captures| + 1
              && p.captures[..|prior.captures|] == prior.captures
              && p.captures[|prior.captures|] == LedgerEntry(input.amount, input.actor)
              && p.(captures := prior.captures) == prior
              && t == s.(payments := s.payments[input.paymentId := p])
  {
    if input.paymentId !in s.payments then Err(NotFound(PaymentEntity, input.paymentId))
    else
      var prior := s.payments[input.paymentId];
      var p := prior.(captures := prior.captures + [LedgerEntry(input.amount, input.actor)]);
      Ok((s.(payments := s.payments[input.paymentId := p]), p))
  }

  /** `refundPayment`: appends one refund entry; the payment's amount stays. */
  function Refund(s: Store, input: LedgerInput): (r: StoreResult<Payment>)
    ensures r.Ok? <==> input.paymentId in s.payments
    ensures r.Err? ==> r.error == NotFound(PaymentEntity, input.paymentId)
    ensures r.Ok? ==>
              var t, p, prior := r.value.0, r.value.1, s.payments[input.paymentId];
              && |p.refunds| == |prior.refunds| + 1
              && p.refunds[..|prior.refunds|] == prior.refunds
              && p.refunds[|prior.refunds|] == LedgerEntry(input.amount, input.actor)
              && p.(refunds := prior.refunds) == prior
              && t == s.(payments := s.payments[input.paymentId := p])
  {
    if input.paymentId !in s.payments then Err(NotFound(PaymentEntity, input.paymentId))
    else
      var prior := s.payments[input.paymentId];
      var p := prior.(refunds := prior.refunds + [LedgerEntry(input.amount, input.actor)]);
      Ok((s.(payments := s.payments[input.paymentId := p]), p))
  }

  /** `cancelPayment`: marks the payment canceled, nothing else. */
  function Cancel(s: Store, paymentId: Id): (r: StoreResult<Payment>)
    ensures r.Ok? <==> paymentId in s.payments
    ensures r.Err? ==> r.error == NotFound(PaymentEntity, paymentId)
    ensures r.Ok? ==>
              var t, p := r.value.0, r.value.1;
              && p.canceledAt
              && p.(canceledAt := s.payments[paymentId].canceledAt) == s.payments[paymentId]
              && t == s.(payments := s.payments[paymentId := p])
  {
    if paymentId !in s.payments then Err(NotFound(PaymentEntity, paymentId))
    else
      var p := s.payments[paymentId].(canceledAt := true);
      Ok((s.(payments := s.payments[paymentId := p]), p))
  }
}
