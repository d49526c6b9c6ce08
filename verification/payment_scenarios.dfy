/**
  Properties that span several service calls: the end-to-end payment flow,
  idempotent authorization, and what listing shows after creation and
  deletion.
 */
module PaymentScenarios {
  import opened Results
  import opened PaymentModel
  import opened PaymentService
  import PaymentInvariants

  /**
    Create a USD 200 collection in region `reg_123`, open a `system` session
    for the full amount, authorize it, capture 200 and complete the
    collection.
   */
  function FullFlow(s: Store, colId: Id, sesId: Id, payId: Id): Result<Store, PaymentError> {
    var created :- CreateCollection(s, colId, CollectionInput(Some("USD"), Some(200), Some("reg_123")));
    var session :- CreateSession(created.0, colId, sesId, SessionInput("system", ProviderContext(200, "USD")));
    var authorized :- Authorize(session.0, sesId, payId);
    var captured :- Capture(authorized.0, LedgerInput(authorized.1.id, 200, None));
    var completed :- CompleteCollection(captured.0, colId);
    Ok(completed.0)
  }

  lemma FullFlowSettlesOneCapture(s: Store, colId: Id, sesId: Id, payId: Id)
    requires colId !in s.collections && sesId !in s.sessions && payId !in s.payments
    ensures FullFlow(s, colId, sesId, payId).Ok?
    ensures var t := FullFlow(s, colId, sesId, payId).value;
            && colId in t.collections && sesId in t.sessions && payId in t.payments
            && var c, x, p := t.collections[colId], t.sessions[sesId], t.payments[payId];
            && c.currencyCode == "USD" && c.amount == 200 && c.regionId == "reg_123"
            && c.completedAt
            && c.sessionIds == [sesId] && c.paymentIds == [payId]
            && x.status == SessionAuthorized && x.authorizedAt && x.amount == 200 && x.providerId == "system"
            && x.currencyCode == "USD"
            && p.amount == 200 && p.currencyCode == "USD" && p.providerId == "system"
            && p.captures == [LedgerEntry(200, None)]
  {
    var r1 := CreateCollection(s, colId, CollectionInput(Some("USD"), Some(200), Some("reg_123")));
    var r2 := CreateSession(r1.value.0, colId, sesId, SessionInput("system", ProviderContext(200, "USD")));
    var r3 := Authorize(r2.value.0, sesId, payId);
    assert r3.Ok?;
    var r4 := Capture(r3.value.0, LedgerInput(payId, 200, None));
    assert r4.Ok?;
    var r5 := CompleteCollection(r4.value.0, colId);
    assert r5.Ok?;
  }

  /**
    Authorizing a 100 session of a 200 collection yields a payment of 100,
    linked to both, with an empty ledger; the collection keeps its amount.
   */
  lemma AuthorizeUsesSessionAmount(s: Store, colId: Id, sesId: Id, payId: Id)
    requires colId !in s.collections && sesId !in s.sessions && payId !in s.payments
    ensures var r1 := CreateCollection(s, colId, CollectionInput(Some("usd"), Some(200), Some("test-region")));
            && r1.Ok?
            && var r2 := CreateSession(r1.value.0, colId, sesId, SessionInput("system", ProviderContext(100, "usd")));
            && r2.Ok?
            && var r3 := Authorize(r2.value.0, sesId, payId);
            && r3.Ok?
            && var t, p := r3.value.0, r3.value.1;
            && p.amount == 100 && p.authorizedAmount == 100 && p.currencyCode == "usd"
            && p.providerId == "system"
            && p.captures == [] && p.refunds == [] && !p.capturedAt && !p.canceledAt
            && p.cartId.None? && p.orderId.None? && p.orderEditId.None? && p.customerId.None?
            && p.collectionId == colId && p.sessionId == sesId
            && t.sessions[sesId].authorizedAt && t.sessions[sesId].amount == 100
            && t.sessions[sesId].currencyCode == "usd" && t.sessions[sesId].providerId == "system"
            && t.sessions[sesId].paymentId == Some(payId)
            && t.sessions[sesId].status == SessionAuthorized
            && t.collections[colId].amount == 200
  {
  }

  /** A new session is pending and leaves the collection `not_paid`; an update switches its currency. */
  lemma SessionCreateThenUpdate(s: Store, colId: Id, sesId: Id)
    requires colId !in s.collections && sesId !in s.sessions
    ensures var r1 := CreateCollection(s, colId, CollectionInput(Some("usd"), Some(100), Some("region-id-1")));
            && r1.Ok?
            && var r2 := CreateSession(r1.value.0, colId, sesId, SessionInput("system", ProviderContext(200, "usd")));
            && r2.Ok?
            && r2.value.0.collections[colId].status == NotPaid
            && r2.value.0.collections[colId].sessionIds == [sesId]
            && r2.value.1.status == Pending && !r2.value.1.authorizedAt
            && r2.value.1.currencyCode == "usd" && r2.value.1.amount == 200 && r2.value.1.providerId == "system"
            && var r3 := UpdateSession(r2.value.0, sesId, ProviderContext(200, "eur"));
            && r3.Ok?
            && r3.value.1.status == Pending && r3.value.1.currencyCode == "eur" && r3.value.1.amount == 200
  {
  }

  /**
    Authorizing a session a second time, whatever fresh id is offered,
    returns the same payment and changes nothing.
   */
  lemma AuthorizeIsIdempotent(s: Store, sessionId: Id, paymentId: Id, retryId: Id)
    requires Valid(s)
    requires Authorize(s, sessionId, paymentId).Ok?
    ensures var t, p := Authorize(s, sessionId, paymentId).value.0, Authorize(s, sessionId, paymentId).value.1;
            Authorize(t, sessionId, retryId) == Ok((t, p))
  {
    PaymentInvariants.AuthorizePreservesValid(s, sessionId, paymentId);
  }

  /** Authorizing a pending session adds exactly one payment to the store. */
  lemma AuthorizeAddsOnePayment(s: Store, sessionId: Id, paymentId: Id)
    requires Valid(s)
    requires sessionId in s.sessions && s.sessions[sessionId].status == Pending
    requires paymentId !in s.payments
    ensures Authorize(s, sessionId, paymentId).Ok?
    ensures var t := Authorize(s, sessionId, paymentId).value.0;
            && t.payments.Keys == s.payments.Keys + {paymentId}
            && |t.payments| == |s.payments| + 1
  {
    var t := Authorize(s, sessionId, paymentId).value.0;
    assert t.payments.Keys == s.payments.Keys + {paymentId};
  }

  /** A collection created without a required field fails with a message naming it. */
  lemma MissingFieldMessage(s: Store, id: Id, input: CollectionInput)
    requires !HasRequiredFields(input)
    ensures CreateCollection(s, id, input).Err?
    ensures CreateCollection(s, id, input).error.Message()
            == "Value for PaymentCollection." + FirstMissingField(input) + " is required, 'undefined' found"
  {
    var field := FirstMissingField(input);
    assert CreateCollection(s, id, input) == Err(MissingField(CollectionEntity, field));
    assert "Value for " + CollectionEntity + "." == "Value for PaymentCollection.";
  }

  /** In a valid store, filtering on one stored id lists exactly that collection. */
  lemma ListByIdFindsOne(s: Store, id: Id)
    requires Valid(s)
    requires id in s.collections
    ensures List(s, Filter(Some({id}), None, None)) == [s.collections[id]]
  {
    var f := Filter(Some({id}), None, None);
    assert CollectionLinked(s, id);
    assert MatchingIds(s, f) == {id} by {
      forall k | k in MatchingIds(s, f)
        ensures k == id
      {
        assert CollectionLinked(s, k);
      }
    }
    ListCountsMatches(s, f);
    var r := List(s, f);
    assert |r| == 1;
    assert s.collections[id] in r;
  }

  /** After deletion, filtering on a deleted id lists nothing. */
  lemma DeletedCollectionNotListed(s: Store, ids: seq<Id>, id: Id)
    requires Valid(s)
    requires id in ids
    ensures List(DeleteCollections(s, ids), Filter(Some({id}), None, None)) == []
  {
    var t := DeleteCollections(s, ids);
    PaymentInvariants.DeleteCollectionsPreservesValid(s, ids);
    var f := Filter(Some({id}), None, None);
    assert MatchingIds(t, f) == {} by {
      forall k | k in t.collections
        ensures k !in MatchingIds(t, f)
      {
        assert CollectionLinked(t, k);
      }
    }
    ListCountsMatches(t, f);
  }
}
