/**
  The newsletter services: subscribing an email, removing every live
  subscription, and removing one subscription by id.
 */
module NewsletterServices {
  import opened Common
  import opened ContentModel
  import opened Database

  /** A live subscription with this email. */
  predicate Subscribed(s: Store, email: string) {
    exists k :: k in s.subscriptions && !s.subscriptions[k].isDeleted && s.subscriptions[k].email == email
  }

  /** `addNewsletterMail`: an email already subscribed (FORBIDDEN inside)
      and an empty or missing email (the schema's `required`) both fail,
      and every failure surfaces as SERVICE_UNAVAILABLE. */
  function AddNewsletterMail(s: Store, email: Option<string>): (r: Result<(Store, Id)>)
    ensures r.Err? ==> r.kind == ServiceUnavailable
    ensures r.Ok? <==> Truthy(email) && !Subscribed(s, email.value)
    ensures r.Ok? ==>
              && r.value.1 == s.nextId
              && r.value.0 == s.(subscriptions := s.subscriptions[s.nextId := Subscription(email.value, false)],
                                 nextId := s.nextId + 1)
              && Subscribed(r.value.0, email.value)
  {
    if email.Some? && Subscribed(s, email.value) then Err(ServiceUnavailable)
    else if !Truthy(email) then Err(ServiceUnavailable)
    else
      var s' := s.(subscriptions := s.subscriptions[s.nextId := Subscription(email.value, false)], nextId := s.nextId + 1);
      assert s'.subscriptions[s.nextId].email == email.value;
      Ok((s', s.nextId))
  }

  /** At most one live subscription per email. */
  predicate OneLiveSubscriptionPerEmail(s: Store) {
    forall a, b ::
      (&& a in s.subscriptions && b in s.subscriptions
       && !s.subscriptions[a].isDeleted && !s.subscriptions[b].isDeleted
       && s.subscriptions[a].email == s.subscriptions[b].email)
      ==> a == b
  }

  /** Subscribing keeps every email subscribed at most once. */
  lemma AddKeepsOneLivePerEmail(s: Store, email: Option<string>)
    requires OneLiveSubscriptionPerEmail(s)
    requires s.nextId !in s.subscriptions
    requires AddNewsletterMail(s, email).Ok?
    ensures OneLiveSubscriptionPerEmail(AddNewsletterMail(s, email).value.0)
  {
    var s' := AddNewsletterMail(s, email).value.0;
    var n := s.nextId;
    forall a, b |
      && a in s'.subscriptions && b in s'.subscriptions
      && !s'.subscriptions[a].isDeleted && !s'.subscriptions[b].isDeleted
      && s'.subscriptions[a].email == s'.subscriptions[b].email
      ensures a == b
    {
      if a != n && b != n {
        assert s'.subscriptions[a] == s.subscriptions[a] && s'.subscriptions[b] == s.subscriptions[b];
      }
    }
  }

  /** The subscriptions whose `isDeleted` is false. */
  function LiveSubscriptionIds(subs: map<Id, Subscription>): (r: set<Id>)
    ensures forall k :: k in r <==> k in subs && !subs[k].isDeleted
  {
    set k | k in subs && !subs[k].isDeleted
  }

  /** `deleteAllNewsletterIntoDB`: removes every live subscription; the
      emptiness guard compares a count with zero the wrong way and never
      fires, so the call always succeeds. */
  function DeleteAllNewsletter(s: Store): (r: Result<Store>)
    ensures r.Ok?
    ensures forall k :: k in r.value.subscriptions <==> k in s.subscriptions && s.subscriptions[k].isDeleted
    ensures forall k :: k in r.value.subscriptions ==> r.value.subscriptions[k] == s.subscriptions[k]
    ensures r.value.users == s.users && r.value.games == s.games && r.value.blogs == s.blogs
    ensures r.value == s.(subscriptions := r.value.subscriptions)
  {
    var count: nat := |LiveSubscriptionIds(s.subscriptions)|;
    if count < 0 then Err(NotFound)
    else Ok(s.(subscriptions := s.subscriptions - LiveSubscriptionIds(s.subscriptions)))
  }

  /** `deleteNewsletterIntoDB`: a missing id is NOT_FOUND; otherwise the
      subscription with that id, live or not, is removed if there is one,
      and an unknown id is not an error. */
  function DeleteNewsletter(s: Store, id: Option<Id>): (r: Result<Store>)
    ensures r.Err? <==> id.None?
    ensures r.Err? ==> r.kind == NotFound
    ensures r.Ok? ==> r.value == s.(subscriptions := s.subscriptions - {id.value})
    ensures r.Ok? && id.value !in s.subscriptions ==> r.value == s
  {
    if id.None? then Err(NotFound)
    else
      assert id.value !in s.subscriptions ==> s.subscriptions - {id.value} == s.subscriptions;
      Ok(s.(subscriptions := s.subscriptions - {id.value}))
  }

  /** Removing a subscription right after adding it restores the collection. */
  lemma AddThenDeleteRestores(s: Store, email: Option<string>)
    requires IdsIssued(s)
    requires AddNewsletterMail(s, email).Ok?
    ensures var (s', id) := AddNewsletterMail(s, email).value;
            DeleteNewsletter(s', Some(id)).value.subscriptions == s.subscriptions
  {
    var (s', id) := AddNewsletterMail(s, email).value;
    assert s.nextId !in s.subscriptions;
    assert s'.subscriptions - {id} == s.subscriptions;
  }

  /** After removing every live subscription, any non-empty email can
      subscribe again. */
  lemma ResubscribeAfterDeleteAll(s: Store, email: string)
    requires email != ""
    ensures AddNewsletterMail(DeleteAllNewsletter(s).value, Some(email)).Ok?
  {
    var s' := DeleteAllNewsletter(s).value;
    assert !Subscribed(s', email) by {
      forall k | k in s'.subscriptions
        ensures s'.subscriptions[k].isDeleted
      {
      }
    }
  }
}
