/**
  Every service operation keeps the store's link structure (`Valid`): each
  record sits under its own id, sessions and payments point at a stored
  collection that lists them, an authorized session points at the payment
  it produced, and that payment keeps the session's amount and currency.
 */
module PaymentInvariants {
  import opened Results
  import opened PaymentModel
  import opened PaymentService

  lemma EmptyStoreValid()
    ensures Valid(EmptyStore)
  {
  }

  lemma CreateCollectionPreservesValid(s: Store, id: Id, input: CollectionInput)
    requires Valid(s)
    ensures CreateCollection(s, id, input).Ok? ==> Valid(CreateCollection(s, id, input).value.0)
  {
    var r := CreateCollection(s, id, input);
    if r.Ok? {
      var t := r.value.0;
      assert id !in s.order;
      forall k | k in t.sessions
        ensures SessionLinked(t, k)
      {
        assert SessionLinked(s, k);
      }
      forall k | k in t.payments
        ensures PaymentLinked(t, k)
      {
        assert PaymentLinked(s, k);
      }
      forall k | k in t.collections
        ensures CollectionLinked(t, k)
      {
        if k != id {
          assert CollectionLinked(s, k);
        }
      }
    }
  }

  lemma {:induction false} CreateCollectionsPreservesValid(s: Store, items: seq<(Id, CollectionInput)>)
    requires Valid(s)
    ensures CreateCollections(s, items).Ok? ==> Valid(CreateCollections(s, items).value.0)
    decreases |items|
  {
    if items != [] {
      CreateCollectionPreservesValid(s, items[0].0, items[0].1);
      var r0 := CreateCollection(s, items[0].0, items[0].1);
      if r0.Ok? {
        CreateCollectionsPreservesValid(r0.value.0, items[1..]);
      }
    }
  }

  lemma UpdateCollectionPreservesValid(s: Store, patch: CollectionPatch)
    requires Valid(s)
    ensures UpdateCollection(s, patch).Ok? ==> Valid(UpdateCollection(s, patch).value.0)
  {
    var r := UpdateCollection(s, patch);
    if r.Ok? {
      var t := r.value.0;
      forall k | k in t.sessions
        ensures SessionLinked(t, k)
      {
        assert SessionLinked(s, k);
      }
      forall k | k in t.payments
        ensures PaymentLinked(t, k)
      {
        assert PaymentLinked(s, k);
      }
      forall k | k in t.collections
        ensures CollectionLinked(t, k)
      {
        assert CollectionLinked(s, k);
      }
    }
  }

  lemma CompleteCollectionPreservesValid(s: Store, id: Id)
    requires Valid(s)
    ensures CompleteCollection(s, id).Ok? ==> Valid(CompleteCollection(s, id).value.0)
  {
    var r := CompleteCollection(s, id);
    if r.Ok? {
      var t := r.value.0;
      forall k | k in t.sessions
        ensures SessionLinked(t, k)
      {
        assert SessionLinked(s, k);
      }
      forall k | k in t.payments
        ensures PaymentLinked(t, k)
      {
        assert PaymentLinked(s, k);
      }
      forall k | k in t.collections
        ensures CollectionLinked(t, k)
      {
        assert CollectionLinked(s, k);
      }
    }
  }

  /** Deleting cascades far enough that no dangling link is left behind. */
  lemma DeleteCollectionsPreservesValid(s: Store, ids: seq<Id>)
    requires Valid(s)
    ensures Valid(DeleteCollections(s, ids))
  {
    var t := DeleteCollections(s, ids);
    forall k | k in t.collections
      ensures CollectionLinked(t, k)
    {
      assert CollectionLinked(s, k);
    }
    forall k | k in t.sessions
      ensures SessionLinked(t, k)
    {
      assert SessionLinked(s, k);
      var x := s.sessions[k];
      if x.paymentId.Some? {
        assert PaymentLinked(s, x.paymentId.value);
      }
    }
    forall k | k in t.payments
      ensures PaymentLinked(t, k)
    {
      assert PaymentLinked(s, k);
    }
    forall i | 0 <= i < |t.order|
      ensures t.order[i] in t.collections
    {
      assert t.order[i] in t.order;
    }
  }

  lemma CreateSessionPreservesValid(s: Store, collectionId: Id, sessionId: Id, input: SessionInput)
    requires Valid(s)
    ensures CreateSession(s, collectionId, sessionId, input).Ok? ==>
              Valid(CreateSession(s, collectionId, sessionId, input).value.0)
  {
    var r := CreateSession(s, collectionId, sessionId, input);
    if r.Ok? {
      var t := r.value.0;
      forall k | k in t.collections
        ensures CollectionLinked(t, k)
      {
        assert CollectionLinked(s, k);
      }
      forall k | k in t.sessions
        ensures SessionLinked(t, k)
      {
        if k != sessionId {
          assert SessionLinked(s, k);
        }
      }
      forall k | k in t.payments
        ensures PaymentLinked(t, k)
      {
        assert PaymentLinked(s, k);
      }
    }
  }

  lemma UpdateSessionPreservesValid(s: Store, sessionId: Id, context: ProviderContext)
    requires Valid(s)
    ensures UpdateSession(s, sessionId, context).Ok? ==> Valid(UpdateSession(s, sessionId, context).value.0)
  {
    var r := UpdateSession(s, sessionId, context);
    if r.Ok? {
      var t := r.value.0;
      forall k | k in t.collections
        ensures CollectionLinked(t, k)
      {
        assert CollectionLinked(s, k);
      }
      forall k | k in t.sessions
        ensures SessionLinked(t, k)
      {
        assert SessionLinked(s, k);
      }
      forall k | k in t.payments
        ensures PaymentLinked(t, k)
      {
        assert PaymentLinked(s, k);
        // a payment's session is authorized, so it is not the pending one updated here
        assert SessionLinked(s, s.payments[k].sessionId);
      }
    }
  }

  lemma AuthorizePreservesValid(s: Store, sessionId: Id, paymentId: Id)
    requires Valid(s)
    ensures Authorize(s, sessionId, paymentId).Ok? ==> Valid(Authorize(s, sessionId, paymentId).value.0)
  {
    var r := Authorize(s, sessionId, paymentId);
    if r.Ok? && s.sessions[sessionId].status != SessionAuthorized {
      var x := s.sessions[sessionId];
      var c := s.collections[x.collectionId];
      var p := r.value.1;
      var x' := x.(status := SessionAuthorized, authorizedAt := true, paymentId := Some(paymentId));
      var c' := c.(paymentIds := c.paymentIds + [paymentId]);
      AuthorizedStoreValid(s, x, x', c, c', p);
    }
  }

  /** The store `Authorize` builds from a pending session is valid. */
  lemma AuthorizedStoreValid(s: Store, x: PaymentSession, x': PaymentSession, c: PaymentCollection,
                             c': PaymentCollection, p: Payment)
    requires Valid(s)
    requires x.id in s.sessions && s.sessions[x.id] == x && x.status == Pending
    requires x.collectionId in s.collections && s.collections[x.collectionId] == c
    requires p.id !in s.payments
    requires p.sessionId == x.id && p.collectionId == x.collectionId
    requires p.authorizedAmount == x.amount && p.currencyCode == x.currencyCode
    requires x' == x.(status := SessionAuthorized, authorizedAt := true, paymentId := Some(p.id))
    requires c' == c.(paymentIds := c.paymentIds + [p.id])
    ensures Valid(Store(s.collections[x.collectionId := c'], s.sessions[x.id := x'],
                        s.payments[p.id := p], s.order))
  {
    var t := Store(s.collections[x.collectionId := c'], s.sessions[x.id := x'], s.payments[p.id := p], s.order);
    forall k | k in t.collections
      ensures CollectionLinked(t, k)
    {
      assert CollectionLinked(s, k);
    }
    forall k | k in t.sessions
      ensures SessionLinked(t, k)
    {
      assert SessionLinked(s, k);
      if k != x.id {
        assert t.sessions[k] == s.sessions[k];
      }
    }
    forall k | k in t.payments
      ensures PaymentLinked(t, k)
    {
      if k != p.id {
        assert PaymentLinked(s, k);
        assert SessionLinked(s, s.payments[k].sessionId);
      }
    }
  }

  lemma UpdatePaymentPreservesValid(s: Store, patch: PaymentPatch)
    requires Valid(s)
    ensures UpdatePayment(s, patch).Ok? ==> Valid(UpdatePayment(s, patch).value.0)
  {
    var r := UpdatePayment(s, patch);
    if r.Ok? {
      PaymentEditPreservesValid(s, patch.id, r.value.1);
    }
  }

  lemma CapturePreservesValid(s: Store, input: LedgerInput)
    requires Valid(s)
    ensures Capture(s, input).Ok? ==> Valid(Capture(s, input).value.0)
  {
    var r := Capture(s, input);
    if r.Ok? {
      PaymentEditPreservesValid(s, input.paymentId, r.value.1);
    }
  }

  lemma RefundPreservesValid(s: Store, input: LedgerInput)
    requires Valid(s)
    ensures Refund(s, input).Ok? ==> Valid(Refund(s, input).value.0)
  {
    var r := Refund(s, input);
    if r.Ok? {
      PaymentEditPreservesValid(s, input.paymentId, r.value.1);
    }
  }

  lemma CancelPreservesValid(s: Store, paymentId: Id)
    requires Valid(s)
    ensures Cancel(s, paymentId).Ok? ==> Valid(Cancel(s, paymentId).value.0)
  {
    var r := Cancel(s, paymentId);
    if r.Ok? {
      PaymentEditPreservesValid(s, paymentId, r.value.1);
    }
  }

  /** `p` may replace the stored payment `id`: it keeps that payment's links, amount and currency. */
  predicate KeepsLinks(s: Store, id: Id, p: Payment) {
    && id in s.payments
    && p.id == id
    && p.collectionId == s.payments[id].collectionId
    && p.sessionId == s.payments[id].sessionId
    && p.authorizedAmount == s.payments[id].authorizedAmount
    && p.currencyCode == s.payments[id].currencyCode
  }

  /** Replacing a payment by one with the same links keeps the store valid. */
  lemma PaymentEditPreservesValid(s: Store, id: Id, p: Payment)
    requires Valid(s) && KeepsLinks(s, id, p)
    ensures Valid(s.(payments := s.payments[id := p]))
  {
    var t := s.(payments := s.payments[id := p]);
    PaymentEditKeepsCollections(s, id, p);
    PaymentEditKeepsSessions(s, id, p);
    PaymentEditKeepsPayments(s, id, p);
    assert OrderExact(t);
  }

  lemma PaymentEditKeepsCollections(s: Store, id: Id, p: Payment)
    requires Valid(s) && KeepsLinks(s, id, p)
    ensures forall k :: k in s.collections ==> CollectionLinked(s.(payments := s.payments[id := p]), k)
  {
    var t := s.(payments := s.payments[id := p]);
    forall k | k in t.collections
      ensures CollectionLinked(t, k)
    {
      assert CollectionLinked(s, k);
    }
  }

  lemma PaymentEditKeepsSessions(s: Store, id: Id, p: Payment)
    requires Valid(s) && KeepsLinks(s, id, p)
    ensures forall k :: k in s.sessions ==> SessionLinked(s.(payments := s.payments[id := p]), k)
  {
    var t := s.(payments := s.payments[id := p]);
    forall k | k in t.sessions
      ensures SessionLinked(t, k)
    {
      assert SessionLinked(s, k);
    }
  }

  lemma PaymentEditKeepsPayments(s: Store, id: Id, p: Payment)
    requires Valid(s) && KeepsLinks(s, id, p)
    ensures forall k :: k in s.payments ==> PaymentLinked(s.(payments := s.payments[id := p]), k)
  {
    var t := s.(payments := s.payments[id := p]);
    forall k | k in t.payments
      ensures PaymentLinked(t, k)
    {
      assert PaymentLinked(s, k);
      if k != id {
        assert t.payments[k] == s.payments[k];
      }
    }
  }
}
