/**
 * The subscription webhook: a created or updated subscription sets the plan
 * its first price maps to, a deleted one downgrades to economico, and every
 * plan change is applied to all users whose email is the Stripe customer's.
 * Any other event type changes nothing.
 */
module Subscription {
  import opened Common
  import opened Schema

  /** The Stripe price ids of the two paid plans. */
  const PadraoPriceId := "price_1QZyWmIZKCJ93bfRu4mNMTPO"
  const PremiumPriceId := "price_1QZyXBIZKCJ93bfRYhzO2zLB"

  /** What `customers.retrieve` gives back. */
  datatype Customer = NotFound | Deleted | Found(email: Option<string>)

  /** The fields of a subscription event the handler reads. */
  datatype SubscriptionEvent = SubscriptionEvent(eventType: string, customer: Customer, priceIds: seq<string>)

  /** The plan a price id buys; any other id counts as economico. */
  function PriceToPlan(priceId: string): (p: Plan)
    ensures p == Padrao <==> priceId == PadraoPriceId
    ensures p == Premium <==> priceId == PremiumPriceId
  {
    if priceId == PadraoPriceId then Padrao
    else if priceId == PremiumPriceId then Premium
    else Economico
  }

  /** `update users set plano = p where email = e`: every user with that email, and no other. */
  function SetPlanByEmail(users: seq<UserRow>, email: string, p: Plan): (r: seq<UserRow>)
    ensures |r| == |users|
    ensures forall i :: 0 <= i < |users| && users[i].email == email ==> r[i] == users[i].(plano := Some(p))
    ensures forall i :: 0 <= i < |users| && users[i].email != email ==> r[i] == users[i]
  {
    seq(|users|, i requires 0 <= i < |users| =>
      if users[i].email == email then users[i].(plano := Some(p)) else users[i])
  }

  /** The customer's email when it is usable; a missing, deleted or email-less customer is an error. */
  function CustomerEmail(c: Customer): (e: Option<string>)
    ensures e.Some? <==> c.Found? && c.email.Some? && Truthy(c.email.value)
    ensures e.Some? ==> e.value == c.email.value
  {
    match c
    case Found(Some(email)) => if Truthy(email) then Some(email) else None
    case _ => None
  }

  /** Whether the event is one the handler acts on. */
  predicate Handled(eventType: string) {
    eventType in ["customer.subscription.created", "customer.subscription.updated", "customer.subscription.deleted"]
  }

  /**
   * The handler. `updateFails` stands for an error reported by the users
   * update; a single update statement, so on error nothing is written.
   */
  function HandleSubscription(users: seq<UserRow>, ev: SubscriptionEvent, updateFails: bool)
    : (r: (seq<UserRow>, Reply))
    ensures !Handled(ev.eventType) ==> r == (users, Ok200)
    ensures r.1 == Error500 <==>
              Handled(ev.eventType) &&
              (CustomerEmail(ev.customer).None? || updateFails ||
               (ev.eventType != "customer.subscription.deleted" && ev.priceIds == []))
    ensures r.1 == Error500 ==> r.0 == users
    ensures r.1 == Ok200 && Handled(ev.eventType) ==>
              var email := ev.customer.email.value;
              var p := if ev.eventType == "customer.subscription.deleted" then Economico else PriceToPlan(ev.priceIds[0]);
              && |r.0| == |users|
              && (forall i :: 0 <= i < |users| && users[i].email == email ==> r.0[i] == users[i].(plano := Some(p)))
              && (forall i :: 0 <= i < |users| && users[i].email != email ==> r.0[i] == users[i])
  {
    if ev.eventType == "customer.subscription.created" || ev.eventType == "customer.subscription.updated" then
      match CustomerEmail(ev.customer)
      case None => (users, Error500)
      case Some(email) =>
        if ev.priceIds == [] then (users, Error500)
        else if updateFails then (users, Error500)
        else (SetPlanByEmail(users, email, PriceToPlan(ev.priceIds[0])), Ok200)
    else if ev.eventType == "customer.subscription.deleted" then
      match CustomerEmail(ev.customer)
      case None => (users, Error500)
      case Some(email) =>
        if updateFails then (users, Error500)
        else (SetPlanByEmail(users, email, Economico), Ok200)
    else (users, Ok200)
  }
}
