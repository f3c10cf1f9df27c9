/**
 * The organiser's payment confirmation page: the two pending lists and the
 * confirm / reject actions. A raffle ticket is confirmed by setting its
 * status and rejected by deleting its row; a pledge is confirmed or
 * cancelled by setting its status, and its row stays.
 */
module ConfirmPayments {
  import opened Common
  import opened Schema
  import opened RaffleTickets

  /** Reserved tickets on raffles the user owns. */
  function PendingTickets(db: Db, userId: string): (ids: set<TicketId>)
    ensures forall id :: id in ids <==>
              id.0 in db.raffles && db.raffles[id.0].rifa.userId == userId
              && id.1 in db.raffles[id.0].bilhetes && db.raffles[id.0].bilhetes[id.1].status == Reservado
  {
    var ids := set rid, n | rid in db.raffles && db.raffles[rid].rifa.userId == userId
                 && n in db.raffles[rid].bilhetes && db.raffles[rid].bilhetes[n].status == Reservado :: (rid, n);
    forall id: TicketId | id.0 in db.raffles && db.raffles[id.0].rifa.userId == userId
        && id.1 in db.raffles[id.0].bilhetes && db.raffles[id.0].bilhetes[id.1].status == Reservado
      ensures id in ids
    {
      var (rid, n) := id;
      assert (rid, n) in ids;
    }
    ids
  }

  /** Ids of the pledges awaiting payment on campaigns the user owns. */
  function PendingPledges(db: Db, userId: string): (ids: set<string>)
    ensures forall id :: id in ids <==>
              exists i :: 0 <= i < |db.pledges| && db.pledges[i].id == id && db.pledges[i].status == Aguardando
                          && db.pledges[i].campanhaId in db.campaigns && db.campaigns[db.pledges[i].campanhaId].userId == userId
  {
    set i | 0 <= i < |db.pledges| && db.pledges[i].status == Aguardando
            && db.pledges[i].campanhaId in db.campaigns && db.campaigns[db.pledges[i].campanhaId].userId == userId
            :: db.pledges[i].id
  }

  /** The database with one raffle's table replaced. */
  function WithTickets(db: Db, rid: string, t: Tickets): (r: Db)
    requires rid in db.raffles
    ensures r.campaigns == db.campaigns && r.pledges == db.pledges
    ensures r.raffles.Keys == db.raffles.Keys
    ensures r.raffles[rid] == db.raffles[rid].(bilhetes := t)
    ensures forall id :: id in db.raffles && id != rid ==> r.raffles[id] == db.raffles[id]
  {
    db.(raffles := db.raffles[rid := db.raffles[rid].(bilhetes := t)])
  }

  /**
   * `update bilhetes_rifa set status = 'confirmado' where id = …`: the row
   * keeps its buyer and gains the status; every other row, every other
   * raffle and both campaign tables are untouched; no row, no change.
   * `updateFails` stands for an error returned by the update: the page shows
   * a toast and the database is as it was.
   */
  function ConfirmTicket(db: Db, id: TicketId, updateFails: bool): (r: Db)
    ensures updateFails ==> r == db
    ensures r.campaigns == db.campaigns && r.pledges == db.pledges
    ensures r.raffles.Keys == db.raffles.Keys
    ensures forall rid :: rid in db.raffles && rid != id.0 ==> r.raffles[rid] == db.raffles[rid]
    ensures !updateFails && id.0 in db.raffles ==>
              var t := db.raffles[id.0].bilhetes;
              var t' := r.raffles[id.0].bilhetes;
              && r.raffles[id.0].rifa == db.raffles[id.0].rifa
              && t'.Keys == t.Keys
              && (id.1 in t ==> t'[id.1] == t[id.1].(status := Confirmado))
              && (forall n :: n in t && n != id.1 ==> t'[n] == t[n])
    ensures id.0 !in db.raffles || id.1 !in db.raffles[id.0].bilhetes ==> r == db
  {
    if !updateFails && id.0 in db.raffles then WithTickets(db, id.0, SetStatus(db.raffles[id.0].bilhetes, id.1, Confirmado))
    else db
  }

  /**
   * `delete from bilhetes_rifa where id = …`: the number has no row
   * afterwards; every other row, every other raffle and both campaign tables
   * are untouched. On a delete error nothing changes.
   */
  function RejectTicket(db: Db, id: TicketId, deleteFails: bool): (r: Db)
    ensures deleteFails ==> r == db
    ensures r.campaigns == db.campaigns && r.pledges == db.pledges
    ensures r.raffles.Keys == db.raffles.Keys
    ensures forall rid :: rid in db.raffles && rid != id.0 ==> r.raffles[rid] == db.raffles[rid]
    ensures !deleteFails && id.0 in db.raffles ==>
              var t := db.raffles[id.0].bilhetes;
              var t' := r.raffles[id.0].bilhetes;
              && r.raffles[id.0].rifa == db.raffles[id.0].rifa
              && id.1 !in t'
              && (forall n :: n != id.1 ==> (n in t' <==> n in t))
              && (forall n :: n in t' ==> t'[n] == t[n])
  {
    if !deleteFails && id.0 in db.raffles then WithTickets(db, id.0, DeleteRow(db.raffles[id.0].bilhetes, id.1))
    else db
  }

  /** Every pledge with this id gets status `s`; nothing else changes. */
  function SetPledgeStatus(pledges: seq<Pledge>, id: string, s: PledgeStatus): (r: seq<Pledge>)
    ensures |r| == |pledges|
    ensures forall i :: 0 <= i < |r| && pledges[i].id == id ==> r[i] == pledges[i].(status := s)
    ensures forall i :: 0 <= i < |r| && pledges[i].id != id ==> r[i] == pledges[i]
  {
    seq(|pledges|, i requires 0 <= i < |pledges| => if pledges[i].id == id then pledges[i].(status := s) else pledges[i])
  }

  /** `update bilhetes_campanha set status = 'pago' where id = …`: that pledge is paid, everything else stays; on an update error nothing changes. */
  function ConfirmPledge(db: Db, id: string, updateFails: bool): (r: Db)
    ensures updateFails ==> r == db
    ensures r.raffles == db.raffles && r.campaigns == db.campaigns
    ensures |r.pledges| == |db.pledges|
    ensures forall i :: 0 <= i < |db.pledges| && db.pledges[i].id == id && !updateFails ==> r.pledges[i] == db.pledges[i].(status := Pago)
    ensures forall i :: 0 <= i < |db.pledges| && db.pledges[i].id != id ==> r.pledges[i] == db.pledges[i]
  {
    if updateFails then db else db.(pledges := SetPledgeStatus(db.pledges, id, Pago))
  }

  /** Rejecting a pledge keeps its row, marked `cancelado`; everything else stays; on an update error nothing changes. */
  function RejectPledge(db: Db, id: string, updateFails: bool): (r: Db)
    ensures updateFails ==> r == db
    ensures r.raffles == db.raffles && r.campaigns == db.campaigns
    ensures |r.pledges| == |db.pledges|
    ensures forall i :: 0 <= i < |db.pledges| && db.pledges[i].id == id && !updateFails ==> r.pledges[i] == db.pledges[i].(status := Cancelado)
    ensures forall i :: 0 <= i < |db.pledges| && db.pledges[i].id != id ==> r.pledges[i] == db.pledges[i]
  {
    if updateFails then db else db.(pledges := SetPledgeStatus(db.pledges, id, Cancelado))
  }

  /** Confirmation has no status precondition, so confirming twice is confirming once. */
  lemma ConfirmTicketIdempotent(db: Db, id: TicketId)
    ensures ConfirmTicket(ConfirmTicket(db, id, false), id, false) == ConfirmTicket(db, id, false)
  {
    if id.0 in db.raffles && id.1 in db.raffles[id.0].bilhetes {
      var once := ConfirmTicket(db, id, false);
      var t := once.raffles[id.0].bilhetes;
      assert SetStatus(t, id.1, Confirmado) == t;
      assert once.raffles[id.0].(bilhetes := t) == once.raffles[id.0];
      assert once.raffles[id.0 := once.raffles[id.0]] == once.raffles;
    }
  }

  /** Confirmed or rejected, a ticket leaves the pending list, and no other pending ticket does. */
  lemma ResolvingTicketLeavesPending(db: Db, userId: string, id: TicketId)
    ensures PendingTickets(ConfirmTicket(db, id, false), userId) == PendingTickets(db, userId) - {id}
    ensures PendingTickets(RejectTicket(db, id, false), userId) == PendingTickets(db, userId) - {id}
  {
    var c := ConfirmTicket(db, id, false);
    var d := RejectTicket(db, id, false);
    forall x ensures x in PendingTickets(c, userId) <==> x in PendingTickets(db, userId) - {id} {
      if x.0 != id.0 && x.0 in db.raffles {
        assert c.raffles[x.0] == db.raffles[x.0];
      }
    }
    forall x ensures x in PendingTickets(d, userId) <==> x in PendingTickets(db, userId) - {id} {
      if x.0 != id.0 && x.0 in db.raffles {
        assert d.raffles[x.0] == db.raffles[x.0];
      }
    }
  }

  /** Moving a pledge out of `aguardando` takes it off the pending list and nothing else. */
  lemma SettlingPledgeLeavesPending(db: Db, userId: string, id: string, s: PledgeStatus)
    requires s != Aguardando
    ensures PendingPledges(db.(pledges := SetPledgeStatus(db.pledges, id, s)), userId) == PendingPledges(db, userId) - {id}
  {
    var d := db.(pledges := SetPledgeStatus(db.pledges, id, s));
    forall x ensures x in PendingPledges(d, userId) <==> x in PendingPledges(db, userId) - {id} {
      if x in PendingPledges(db, userId) && x != id {
        var i :| 0 <= i < |db.pledges| && db.pledges[i].id == x && db.pledges[i].status == Aguardando
                 && db.pledges[i].campanhaId in db.campaigns && db.campaigns[db.pledges[i].campanhaId].userId == userId;
        assert d.pledges[i] == db.pledges[i];
      }
      if x in PendingPledges(d, userId) {
        var i :| 0 <= i < |d.pledges| && d.pledges[i].id == x && d.pledges[i].status == Aguardando
                 && d.pledges[i].campanhaId in d.campaigns && d.campaigns[d.pledges[i].campanhaId].userId == userId;
        assert d.pledges[i] == db.pledges[i];
      }
    }
  }

  /** Confirmed or rejected, a pledge leaves the pending list; rejecting keeps it in the table, cancelled. */
  lemma ResolvingPledgeLeavesPending(db: Db, userId: string, id: string)
    ensures PendingPledges(ConfirmPledge(db, id, false), userId) == PendingPledges(db, userId) - {id}
    ensures PendingPledges(RejectPledge(db, id, false), userId) == PendingPledges(db, userId) - {id}
    ensures |RejectPledge(db, id, false).pledges| == |db.pledges|
    ensures forall i :: 0 <= i < |db.pledges| && db.pledges[i].id == id ==> RejectPledge(db, id, false).pledges[i].status == Cancelado
  {
    SettlingPledgeLeavesPending(db, userId, id, Pago);
    SettlingPledgeLeavesPending(db, userId, id, Cancelado);
  }

  /** Confirming a pledge twice is confirming it once. */
  lemma ConfirmPledgeIdempotent(db: Db, id: string)
    ensures ConfirmPledge(ConfirmPledge(db, id, false), id, false) == ConfirmPledge(db, id, false)
  {
    var once := ConfirmPledge(db, id, false);
    assert SetPledgeStatus(once.pledges, id, Pago) == once.pledges;
  }
}
