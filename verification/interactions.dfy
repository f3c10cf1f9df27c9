/**
 * How the operations on a raffle's ticket table meet. Creation writes a row
 * for every number 1..N; the buyer's reservation refuses any number that
 * has a row; the grid offers only numbers whose row is available; the
 * webhook's allocator skips every number with a row; rejection deletes the
 * row. The lemmas below follow a table through several of them.
 */
module Interactions {
  import opened Common
  import opened Schema
  import opened JsNumbers
  import opened RaffleTickets
  import Grid
  import Checkout
  import PaymentWebhook
  import CreateRaffle
  import SellerStats
  import CampaignDetails

  /** After creation, every number 1..N already has a row, so reserving any of them is refused as sold. */
  lemma ReserveAfterCreationRefused(n: int, selected: seq<int>, b: Buyer, insertFails: bool)
    requires exists i :: 0 <= i < |selected| && 1 <= selected[i] <= n
    ensures var r := Reserve(InitialTable(n), selected, b, false, false, insertFails);
      && r.1.AlreadySold?
      && r.0 == InitialTable(n)
      && forall k :: k in r.1.numbers <==> k in selected && 1 <= k <= n
  {
  }

  /** The smallest case: a one-ticket raffle whose only number cannot be reserved. */
  lemma OneTicketRaffleUnreservable(b: Buyer)
    ensures Reserve(InitialTable(1), [1], b, false, false, false).1 == AlreadySold({1})
  {
    var r := Reserve(InitialTable(1), [1], b, false, false, false);
    assert [1][0] == 1;
    assert r.1.AlreadySold?;
    assert r.1.numbers == {1};
  }

  /**
   * The corrected reservation on a freshly created raffle: any duplicate-free
   * choice of numbers in 1..N is reserved for the buyer, and every other
   * number keeps its available row.
   */
  lemma ReserveIntendedAfterCreation(n: int, selected: seq<int>, b: Buyer)
    requires NoDuplicates(selected)
    requires forall i :: 0 <= i < |selected| ==> 1 <= selected[i] <= n
    ensures var r := ReserveIntended(InitialTable(n), selected, b, false, false, false);
      && r.1 == Reserved
      && (forall k :: k in r.0 <==> 1 <= k <= n)
      && (forall k :: k in selected ==> r.0[k] == HolderRow(Reservado, b))
      && (forall k :: 1 <= k <= n && k !in selected ==> r.0[k] == AvailableRow)
  {
    var t := InitialTable(n);
    assert forall i :: 0 <= i < |selected| ==> !Taken(t, selected[i]);
    var r := ReserveIntended(t, selected, b, false, false, false);
    forall k | k in selected ensures r.0[k] == HolderRow(Reservado, b) {
      var i :| 0 <= i < |selected| && selected[i] == k;
    }
  }

  /** The grid's list of tickets reflects the table: every listed number has a row with the listed status. */
  predicate GridOf(bilhetes: seq<Grid.GridTicket>, t: Tickets) {
    forall i :: 0 <= i < |bilhetes| ==> bilhetes[i].numero in t && t[bilhetes[i].numero].status == bilhetes[i].status
  }

  lemma EligibleHasAvailableRow(bilhetes: seq<Grid.GridTicket>, t: Tickets, n: int)
    requires GridOf(bilhetes, t) && Grid.Eligible(bilhetes, false, n)
    ensures n in t && t[n].status == Disponivel
  {
    var g := Grid.Find(bilhetes, n).value;
    var i :| 0 <= i < |bilhetes| && bilhetes[i] == g && g.numero == n && forall j :: 0 <= j < i ==> bilhetes[j].numero != n;
  }

  /**
   * A number the grid lets the buyer select has an available row, and the
   * reservation refuses every number with a row: whatever the buyer selects
   * through the grid is refused as already sold.
   */
  lemma GridSelectionRefused(bilhetes: seq<Grid.GridTicket>, t: Tickets, selected: seq<int>, b: Buyer, insertFails: bool)
    requires GridOf(bilhetes, t) && selected != []
    requires forall i :: 0 <= i < |selected| ==> Grid.Eligible(bilhetes, false, selected[i])
    ensures var r := Reserve(t, selected, b, false, false, insertFails);
      r.1.AlreadySold? && r.1.numbers == set k | k in selected
  {
    EligibleHasAvailableRow(bilhetes, t, selected[0]);
    var r := Reserve(t, selected, b, false, false, insertFails);
    assert selected[0] in t;
    forall k | k in selected ensures k in t {
      var i :| 0 <= i < |selected| && selected[i] == k;
      EligibleHasAvailableRow(bilhetes, t, k);
    }
  }

  /** The corrected reservation accepts every duplicate-free selection the grid allows. */
  lemma GridSelectionReservedIntended(bilhetes: seq<Grid.GridTicket>, t: Tickets, selected: seq<int>, b: Buyer)
    requires GridOf(bilhetes, t) && NoDuplicates(selected)
    requires forall i :: 0 <= i < |selected| ==> Grid.Eligible(bilhetes, false, selected[i])
    ensures ReserveIntended(t, selected, b, false, false, false).1 == Reserved
  {
    forall i | 0 <= i < |selected| ensures !Taken(t, selected[i]) {
      EligibleHasAvailableRow(bilhetes, t, selected[i]);
    }
  }

  /**
   * The webhook never looks at the raffle's ticket quantity: on a freshly
   * created raffle of N tickets, q paid tickets land on N+1 .. N+q.
   */
  lemma WebhookAfterCreation(n: nat, q: nat, row: TicketRow)
    requires n + q <= MaxScan
    ensures var a := Allocate(InitialTable(n), q, row, true, None);
      && !a.failed
      && |a.inserted| == q
      && (forall j :: 0 <= j < q ==> a.inserted[j] == n + 1 + j)
      && (forall k :: k in a.bilhetes && k > n ==> a.bilhetes[k] == row)
  {
    var t := InitialTable(n);
    AllocateAfterPrefix(t.Keys, n, 0, q);
  }

  /**
   * End to end: a raffle of N tickets created through the page, then paid for
   * q tickets through the webhook, keeps 1..N available and gives the buyer
   * N+1 .. N+q, numbers the raffle never offered.
   */
  lemma PaidTicketsAfterCreatedRaffle(db: Db, u: UserRow, form: CreateRaffle.RaffleForm, image: ImageUpload,
                                      newId: string, m: Checkout.Metadata)
    requires CreateRaffle.HandleSubmit(db, u, form, image, newId, false, false).1.Created?
    requires m.itemId == newId
    requires ParseInt(form.quantidade).value >= 0
    requires ParseInt(form.quantidade).value + PaymentWebhook.LoopCount(m.quantidade) <= MaxScan
    ensures var n := ParseInt(form.quantidade).value;
      var q := PaymentWebhook.LoopCount(m.quantidade);
      var db' := CreateRaffle.HandleSubmit(db, u, form, image, newId, false, false).0;
      var r := PaymentWebhook.HandleRaffle(db', m, None);
      var t := r.0.raffles[newId].bilhetes;
      && r.1 == Ok200
      && (forall k :: 1 <= k <= n ==> k in t && t[k] == AvailableRow)
      && (forall k :: n < k <= n + q ==> k in t && t[k] == HolderRow(Confirmado, PaymentWebhook.MetaBuyer(m)))
  {
    var n := ParseInt(form.quantidade).value;
    var db' := CreateRaffle.HandleSubmit(db, u, form, image, newId, false, false).0;
    assert db'.raffles[newId].bilhetes == InitialTable(n);
    PaidTicketsOnNewTable(n, PaymentWebhook.LoopCount(m.quantidade), HolderRow(Confirmado, PaymentWebhook.MetaBuyer(m)));
  }

  /** The table-level half of the end-to-end lemma. */
  lemma PaidTicketsOnNewTable(n: nat, q: nat, row: TicketRow)
    requires n + q <= MaxScan
    ensures var a := Allocate(InitialTable(n), q, row, true, None);
      && !a.failed
      && (forall k :: 1 <= k <= n ==> k in a.bilhetes && a.bilhetes[k] == AvailableRow)
      && (forall k :: n < k <= n + q ==> k in a.bilhetes && a.bilhetes[k] == row)
  {
    WebhookAfterCreation(n, q, row);
    var a := Allocate(InitialTable(n), q, row, true, None);
    forall k | n < k <= n + q ensures k in a.bilhetes && a.bilhetes[k] == row {
      assert a.inserted[k - n - 1] == k;
    }
  }

  /** A rejected ticket's number has no row any more, so the buyer's reservation accepts it again. */
  lemma RejectThenReserve(t: Tickets, n: int, b: Buyer)
    ensures var r := Reserve(DeleteRow(t, n), [n], b, false, false, false);
      r.1 == Reserved && r.0 == t[n := HolderRow(Reservado, b)]
  {
    var t' := DeleteRow(t, n);
    var r := Reserve(t', [n], b, false, false, false);
    assert [n][0] == n;
    assert r.1 == Reserved;
    assert r.0 == t[n := HolderRow(Reservado, b)] by {
      forall k | k in r.0 ensures k in t[n := HolderRow(Reservado, b)] {
      }
    }
  }

  /** Once reserved, a number is refused to the next buyer, and the allocator never picks it. */
  lemma ReservedNumberStaysTaken(t: Tickets, selected: seq<int>, b: Buyer, b': Buyer, k: int, count: nat, row: TicketRow)
    requires Reserve(t, selected, b, false, false, false).1 == Reserved
    requires k in selected
    ensures var t' := Reserve(t, selected, b, false, false, false).0;
      && Reserve(t', [k], b', false, false, false).1 == AlreadySold({k})
      && k !in Allocate(t', count, row, true, None).inserted
  {
    var t' := Reserve(t, selected, b, false, false, false).0;
    assert [k][0] == k;
    var r := Reserve(t', [k], b', false, false, false);
    assert r.1.numbers == {k};
  }

  /**
   * A checkout created for a positive quantity makes the webhook loop run
   * exactly that many times, and a campaign purchase record that quantity.
   */
  lemma CheckoutQuantityReachesWebhook(req: Checkout.CheckoutRequest, origin: string, titulo: Option<string>, stripeFails: bool,
                                       db: Db, newId: string)
    requires Checkout.CreateCheckout(req, origin, titulo, stripeFails).Created?
    requires req.quantidade > 0
    ensures var m := Checkout.CreateCheckout(req, origin, titulo, stripeFails).session.metadata;
      && PaymentWebhook.LoopCount(m.quantidade) == req.quantidade
      && (m.itemId in db.campaigns ==>
            PaymentWebhook.HandleCampaign(db, m, newId, false).0.pledges[|db.pledges|].quantidade == req.quantidade)
  {
    Checkout.MetadataQuantityRoundTrip(req, origin, titulo, stripeFails);
  }

  /**
   * The seller card's figures after a card purchase of more tickets than a
   * freshly created raffle has: every paid ticket lands on a row of its own,
   * so the card shows more collected than the raffle could ever bring in.
   */
  lemma OversoldAfterCreation(n: nat, q: nat, b: Buyer, rows: seq<(int, TicketRow)>, valorCents: int)
    requires n + q <= MaxScan && q > n && valorCents > 0
    requires SellerStats.Lists(rows, Allocate(InitialTable(n), q, HolderRow(Confirmado, b), true, None).bilhetes)
    ensures SellerStats.TotalArrecadado(rows, valorCents) > SellerStats.TotalPossivel(n, valorCents)
  {
    var t := Allocate(InitialTable(n), q, HolderRow(Confirmado, b), true, None).bilhetes;
    PaidTicketsOnNewTable(n, q, HolderRow(Confirmado, b));
    var paid := SellerStats.Range(n + q) - SellerStats.Range(n);
    SellerStats.SubsetDifference(SellerStats.Range(n + q), SellerStats.Range(n));
    SellerStats.SoldCoversConfirmed(rows, t, paid);
    SellerStats.RevenueAtMostPossible(rows, n, valorCents);
  }

  /** The amount the quantity times the price, split back per ticket. */
  lemma ExactUnitAmount(quantidade: int, precoCents: int)
    requires quantidade >= 1
    ensures Checkout.UnitAmount(quantidade * precoCents, quantidade) == precoCents
  {
    var u := Checkout.UnitAmount(quantidade * precoCents, quantidade);
    assert u * quantidade - quantidade * precoCents == (u - precoCents) * quantidade;
    MultipleBound(u - precoCents, quantidade);
  }

  /** A non-zero whole multiple of a positive number is at least that number away from 0. */
  lemma MultipleBound(d: int, q: int)
    requires q >= 1
    ensures d >= 1 ==> d * q >= q
    ensures d <= -1 ==> d * q <= -q
  {
    if d >= 1 {
      assert d * q == (d - 1) * q + q;
    } else if d <= -1 {
      assert d * q == (d + 1) * q - q;
    }
  }

  /**
   * Whenever the campaign's buy button is enabled, the checkout built from
   * the amount the box shows charges exactly the campaign's ticket price per
   * ticket, so Stripe's total is the amount shown.
   */
  lemma PurchaseBoxCharge(quantidade: int, precoCents: int)
    ensures CampaignDetails.PurchaseBox(quantidade, precoCents).1 <==> quantidade >= 1
    ensures CampaignDetails.PurchaseBox(quantidade, precoCents).1 ==>
              var valor := CampaignDetails.PurchaseBox(quantidade, precoCents).0;
              && Checkout.UnitAmount(valor, quantidade) == precoCents
              && Checkout.UnitAmount(valor, quantidade) * quantidade == valor
  {
    if quantidade >= 1 {
      ExactUnitAmount(quantidade, precoCents);
    }
  }
}
