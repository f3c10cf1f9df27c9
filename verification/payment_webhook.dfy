/**
 * The payment webhook: on a completed checkout session it turns the
 * session's metadata into tickets. A raffle purchase inserts one confirmed
 * ticket per unit, each at the smallest number without a row; a campaign
 * purchase inserts a single paid pledge for the whole quantity.
 */
module PaymentWebhook {
  import opened Common
  import opened Schema
  import opened JsNumbers
  import opened RaffleTickets
  import Checkout

  /** The fields of a Stripe event the handler reads. */
  datatype StripeEvent = StripeEvent(eventType: string, metadata: Option<Checkout.Metadata>)

  /**
   * Database faults the model cannot derive from the tables: the raffle
   * insert that fails at iteration `ticketFailAt`, and a failing pledge insert.
   */
  datatype Faults = Faults(ticketFailAt: Option<nat>, pledgeFails: bool)

  /** `for (i = 0; i < parseInt(quantidade); i++)`: how many times the loop runs. */
  function LoopCount(quantidade: string): (n: nat)
    ensures ParseInt(quantidade).Some? && ParseInt(quantidade).value > 0 ==> n == ParseInt(quantidade).value
    ensures ParseInt(quantidade).None? || ParseInt(quantidade).value <= 0 ==> n == 0
  {
    match ParseInt(quantidade)
    case Some(q) => if q > 0 then q else 0
    case None => 0
  }

  /** The metadata's buyer, as the rows record it. */
  function MetaBuyer(m: Checkout.Metadata): Buyer {
    Buyer(m.nome, m.cpf, m.telefone)
  }

  /** The raffle branch: the allocation loop on the raffle's tickets. */
  function HandleRaffle(db: Db, m: Checkout.Metadata, failAt: Option<nat>): (r: (Db, Reply))
    ensures r.0.campaigns == db.campaigns && r.0.pledges == db.pledges
    ensures r.0.raffles.Keys == db.raffles.Keys
    ensures forall id :: id in db.raffles && id != m.itemId ==> r.0.raffles[id] == db.raffles[id]
    ensures m.itemId !in db.raffles ==> r.0 == db && (r.1 == Ok200 <==> LoopCount(m.quantidade) == 0)
    ensures m.itemId in db.raffles ==>
              var t := db.raffles[m.itemId].bilhetes;
              var a := Allocate(t, LoopCount(m.quantidade), HolderRow(Confirmado, MetaBuyer(m)), true, failAt);
              && r.0.raffles[m.itemId] == db.raffles[m.itemId].(bilhetes := a.bilhetes)
              && (r.1 == Ok200 <==> !a.failed)
  {
    var count := LoopCount(m.quantidade);
    var row := HolderRow(Confirmado, MetaBuyer(m));
    if m.itemId in db.raffles then
      var rec := db.raffles[m.itemId];
      var a := Allocate(rec.bilhetes, count, row, true, failAt);
      (db.(raffles := db.raffles[m.itemId := rec.(bilhetes := a.bilhetes)]), if a.failed then Error500 else Ok200)
    else
      // the foreign key on rifa_id refuses the first insert, if there is one
      var a := Allocate(map[], count, row, false, failAt);
      (db, if a.failed then Error500 else Ok200)
  }

  /** The campaign branch: one paid pledge for the whole quantity. */
  function HandleCampaign(db: Db, m: Checkout.Metadata, newId: string, pledgeFails: bool): (r: (Db, Reply))
    ensures r.0.raffles == db.raffles && r.0.campaigns == db.campaigns
    ensures r.1 == Ok200 <==> ParseInt(m.quantidade).Some? && m.itemId in db.campaigns && !pledgeFails
    ensures r.1 == Error500 ==> r.0 == db
    ensures r.1 == Ok200 ==>
              r.0.pledges == db.pledges + [Pledge(newId, m.itemId, m.nome, m.cpf, m.telefone, ParseInt(m.quantidade).value, Pago)]
  {
    match ParseInt(m.quantidade)
    case None => (db, Error500)   // NaN is not an integer column value
    case Some(q) =>
      if m.itemId !in db.campaigns || pledgeFails then (db, Error500)
      else (db.(pledges := db.pledges + [Pledge(newId, m.itemId, m.nome, m.cpf, m.telefone, q, Pago)]), Ok200)
  }

  /**
   * The handler. Only `checkout.session.completed` with metadata acts; a
   * `tipo` other than "rifa" and "campanha" is acknowledged without effect.
   */
  function HandlePayment(db: Db, ev: StripeEvent, newPledgeId: string, faults: Faults): (r: (Db, Reply))
    ensures ev.eventType != "checkout.session.completed" ==> r == (db, Ok200)
    ensures ev.metadata.None? ==> r == (db, Ok200)
    ensures ev.metadata.Some? && ev.metadata.value.tipo != "rifa" && ev.metadata.value.tipo != "campanha" ==> r == (db, Ok200)
    ensures r.0.raffles != db.raffles ==> ev.eventType == "checkout.session.completed" && ev.metadata.Some? && ev.metadata.value.tipo == "rifa"
    ensures r.0.pledges != db.pledges ==> ev.eventType == "checkout.session.completed" && ev.metadata.Some? && ev.metadata.value.tipo == "campanha"
  {
    if ev.eventType != "checkout.session.completed" then (db, Ok200)
    else match ev.metadata
      case None => (db, Ok200)
      case Some(m) =>
        if m.tipo == "rifa" then HandleRaffle(db, m, faults.ticketFailAt)
        else if m.tipo == "campanha" then HandleCampaign(db, m, newPledgeId, faults.pledgeFails)
        else (db, Ok200)
  }

  /**
   * A raffle purchase with no database fault on an existing raffle that has
   * enough free numbers inserts exactly parseInt(quantidade) confirmed tickets
   * carrying the buyer, at new numbers, and keeps every earlier row.
   */
  lemma RafflePurchaseInserts(db: Db, m: Checkout.Metadata)
    requires m.itemId in db.raffles
    requires |FreeNumbers(db.raffles[m.itemId].bilhetes.Keys)| >= LoopCount(m.quantidade)
    ensures var r := HandleRaffle(db, m, None);
      var t := db.raffles[m.itemId].bilhetes;
      var t' := r.0.raffles[m.itemId].bilhetes;
      && r.1 == Ok200
      && |t'.Keys - t.Keys| == LoopCount(m.quantidade)
      && (forall k :: k in t ==> k in t' && t'[k] == t[k])
      && (forall k :: k in t' && k !in t ==> t'[k] == HolderRow(Confirmado, MetaBuyer(m)))
  {
    var t := db.raffles[m.itemId].bilhetes;
    var count := LoopCount(m.quantidade);
    AllocateCompletes(t.Keys, 0, count);
    AllocatesIncreasing(t.Keys, 0, count, true, None);
    var a := Allocate(t, count, HolderRow(Confirmado, MetaBuyer(m)), true, None);
    var t' := HandleRaffle(db, m, None).0.raffles[m.itemId].bilhetes;
    assert t'.Keys - t.Keys == set j | 0 <= j < |a.inserted| :: a.inserted[j];
    DistinctCard(a.inserted);
  }

  /** A strictly increasing list has as many distinct elements as entries. */
  lemma {:induction false} DistinctCard(s: seq<int>)
    requires Increasing(s)
    ensures |set j | 0 <= j < |s| :: s[j]| == |s|
  {
    if |s| > 0 {
      var init := s[..|s| - 1];
      assert Increasing(init);
      DistinctCard(init);
      var a := set j | 0 <= j < |init| :: init[j];
      var b := set j | 0 <= j < |s| :: s[j];
      assert b == a + {s[|s| - 1]} by {
        forall x | x in b ensures x in a + {s[|s| - 1]} {
          var j :| 0 <= j < |s| && s[j] == x;
          if j < |s| - 1 { assert init[j] == x; }
        }
      }
      assert s[|s| - 1] !in a;
    }
  }
}
