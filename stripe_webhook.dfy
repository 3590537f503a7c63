/** The payment webhook of app/api/stripe-webhook/route.ts: a completed
    checkout adds the purchased credits to the buyer's balance. */
module StripeWebhook {
  import opened Seqs
  import opened Records
  import LowDb

  const CheckoutCompleted := "checkout.session.completed"

  /** The checkout session's metadata. A value that is absent or the empty
      string is None; `credits` is the already-parsed count. */
  datatype Metadata = Metadata(userId: Option<string>, credits: Option<nat>)

  /** A webhook event whose signature verified. */
  datatype Event = Event(eventType: string, metadata: Option<Metadata>)

  datatype WebhookResponse =
    | MissingSignature    // 400
    | WebhookError        // 400: the signature did not verify
    | MissingMetadata     // 400
    | UserNotFound        // 404
    | Received            // 200

  predicate Present(s: Option<string>)
  {
    s.Some? && s.value != ""
  }

  /** The buyer and the purchased credits a completed checkout grants. */
  datatype Purchase = Purchase(buyer: string, credits: nat)

  /** The purchase the metadata names, or None when the buyer or the credit
      count is missing: a purchase is read exactly when both are there, and
      it carries them unchanged. */
  function PurchaseOf(m: Option<Metadata>): (r: Option<Purchase>)
    ensures r.Some? <==> m.Some? && Present(m.value.userId) && m.value.credits.Some?
    ensures r.Some? ==> r.value.buyer != "" && Some(r.value.buyer) == m.value.userId && Some(r.value.credits) == m.value.credits
  {
    if m.None? || !Present(m.value.userId) || m.value.credits.None? then None
    else Some(Purchase(m.value.userId.value, m.value.credits.value))
  }

  /** `POST /api/stripe-webhook`. `event` is None when the signature does not
      verify against the secret. Only a completed checkout with complete
      metadata for a known user changes anything: that user's balance grows
      by exactly the purchased credits. Nothing records which sessions were
      already processed. */
  method Post(db: LowDb.Db, signature: Option<string>, webhookSecret: Option<string>, event: Option<Event>)
    returns (resp: WebhookResponse)
    modifies db`users
    ensures !Present(signature) || !Present(webhookSecret) ==> resp == MissingSignature && db.users == old(db.users)
    ensures Present(signature) && Present(webhookSecret) && event.None? ==> resp == WebhookError && db.users == old(db.users)
    ensures Present(signature) && Present(webhookSecret) && event.Some? ==>
      var e := event.value;
      && (e.eventType != CheckoutCompleted ==> resp == Received && db.users == old(db.users))
      && (e.eventType == CheckoutCompleted && PurchaseOf(e.metadata).None? ==> resp == MissingMetadata && db.users == old(db.users))
      && (e.eventType == CheckoutCompleted && PurchaseOf(e.metadata).Some? ==>
            var purchase := PurchaseOf(e.metadata).value;
            var found := IndexById(old(db.users), purchase.buyer);
            && (found.None? ==> resp == UserNotFound && db.users == old(db.users))
            && (found.Some? ==>
                  resp == Received && db.users == AddCredits(old(db.users), found.value, purchase.credits)))
    ensures old(db.Valid()) ==> db.Valid()
  {
    if !Present(signature) || !Present(webhookSecret) {
      return MissingSignature;
    }
    if event.None? {
      return WebhookError;
    }
    var e := event.value;
    if e.eventType == CheckoutCompleted {
      var purchase := PurchaseOf(e.metadata);
      if purchase.None? {
        return MissingMetadata;
      }
      var found := IndexById(db.users, purchase.value.buyer);
      if found.Some? {
        AddCreditsKeepsKeys(db.users, found.value, purchase.value.credits);
        db.users := AddCredits(db.users, found.value, purchase.value.credits);
      } else {
        return UserNotFound;
      }
    }
    resp := Received;
  }

  /** Delivering the same completed checkout twice credits the buyer twice. */
  method DeliveredTwice(db: LowDb.Db, signature: string, webhookSecret: string, buyer: nat, credits: nat)
    returns (first: WebhookResponse, second: WebhookResponse)
    requires signature != "" && webhookSecret != ""
    requires buyer < |db.users| && db.users[buyer].id != ""
    requires IndexById(db.users, db.users[buyer].id) == Some(buyer)
    modifies db`users
    ensures first == Received && second == Received
    ensures |db.users| == |old(db.users)|
    ensures db.users[buyer].creditsBalance == old(db.users)[buyer].creditsBalance + 2 * credits
  {
    var event := Event(CheckoutCompleted, Some(Metadata(Some(db.users[buyer].id), Some(credits))));
    first := Post(db, Some(signature), Some(webhookSecret), Some(event));
    AddCreditsKeepsKeys(old(db.users), buyer, credits);
    second := Post(db, Some(signature), Some(webhookSecret), Some(event));
  }
}
