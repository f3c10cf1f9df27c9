/**
 * The buyer's ticket lookup: the raffle tickets and the campaign pledges
 * recorded under a cpf and phone pair, merged into one list of entries and
 * sorted newest first.
 *
 * Creation times are milliseconds since the epoch; a null `created_at`
 * counts as time 0.
 */
module TicketLookup {
  import opened Common
  import opened Schema
  import opened StableSort

  /** The embedded parent raffle of a ticket row. */
  datatype RaffleRef = RaffleRef(id: string, titulo: string, status: RaffleStatus)

  /** The embedded parent campaign of a pledge row. */
  datatype CampaignRef = CampaignRef(id: string, titulo: string)

  /** A bilhetes_rifa row with its creation time and its raffle, None when that raffle is gone. */
  datatype TicketHit = TicketHit(id: string, numero: int, row: TicketRow, createdAt: Option<int>, rifa: Option<RaffleRef>)

  /** A bilhetes_campanha row with its creation time and its campaign, None when that campaign is gone. */
  datatype PledgeHit = PledgeHit(pledge: Pledge, createdAt: Option<int>, campanha: Option<CampaignRef>)

  datatype EntryStatus = OfTicket(ticket: TicketStatus) | OfPledge(pledge: PledgeStatus)

  /** One entry of the merged list. */
  datatype Entry = Entry(
    id: string,
    numero: Option<int>,
    quantidade: int,
    status: EntryStatus,
    createdAt: Option<int>,
    titulo: string,
    tipo: PaymentKind,
    rifaStatus: Option<RaffleStatus>,
    itemId: Option<string>)

  /** `.eq("cpf", cpf).eq("telefone", telefone)` on bilhetes_rifa: a null column matches nothing. */
  function MatchingTickets(rows: seq<TicketHit>, cpf: string, telefone: string): (r: seq<TicketHit>)
    ensures |r| <= |rows|
    ensures forall h :: h in r <==> h in rows && h.row.cpf == Some(cpf) && h.row.telefone == Some(telefone)
    decreases |rows|
  {
    if |rows| == 0 then []
    else
      var rest := MatchingTickets(rows[1..], cpf, telefone);
      assert forall h :: h in rows <==> h == rows[0] || h in rows[1..];
      if rows[0].row.cpf == Some(cpf) && rows[0].row.telefone == Some(telefone) then [rows[0]] + rest else rest
  }

  /** The same two equality filters on bilhetes_campanha. */
  function MatchingPledges(rows: seq<PledgeHit>, cpf: string, telefone: string): (r: seq<PledgeHit>)
    ensures |r| <= |rows|
    ensures forall h :: h in r <==> h in rows && h.pledge.cpf == cpf && h.pledge.telefone == telefone
    decreases |rows|
  {
    if |rows| == 0 then []
    else
      var rest := MatchingPledges(rows[1..], cpf, telefone);
      assert forall h :: h in rows <==> h == rows[0] || h in rows[1..];
      if rows[0].pledge.cpf == cpf && rows[0].pledge.telefone == telefone then [rows[0]] + rest else rest
  }

  /** A raffle ticket as an entry: one unit, titled after its raffle or "Rifa removida". */
  function TicketEntry(h: TicketHit): (e: Entry)
    ensures e.tipo == TipoRifa && e.quantidade == 1 && e.numero == Some(h.numero)
    ensures e.id == h.id && e.createdAt == h.createdAt && e.status == OfTicket(h.row.status)
    ensures h.rifa.None? ==> e.titulo == "Rifa removida" && e.itemId.None? && e.rifaStatus.None?
    ensures h.rifa.Some? ==> e.itemId == Some(h.rifa.value.id) && e.rifaStatus == Some(h.rifa.value.status)
    ensures h.rifa.Some? && Truthy(h.rifa.value.titulo) ==> e.titulo == h.rifa.value.titulo
  {
    var parent := h.rifa;
    Entry(h.id, Some(h.numero), 1, OfTicket(h.row.status), h.createdAt,
          OrElse(if parent.Some? then Some(parent.value.titulo) else None, "Rifa removida"),
          TipoRifa,
          if parent.Some? then Some(parent.value.status) else None,
          if parent.Some? then Some(parent.value.id) else None)
  }

  /** A pledge as an entry: its own quantity, titled after its campaign or "Campanha removida". */
  function PledgeEntry(h: PledgeHit): (e: Entry)
    ensures e.tipo == TipoCampanha && e.quantidade == h.pledge.quantidade && e.numero.None?
    ensures e.id == h.pledge.id && e.createdAt == h.createdAt && e.status == OfPledge(h.pledge.status)
    ensures e.rifaStatus.None?
    ensures h.campanha.None? ==> e.titulo == "Campanha removida" && e.itemId.None?
    ensures h.campanha.Some? ==> e.itemId == Some(h.campanha.value.id)
    ensures h.campanha.Some? && Truthy(h.campanha.value.titulo) ==> e.titulo == h.campanha.value.titulo
  {
    var parent := h.campanha;
    Entry(h.pledge.id, None, h.pledge.quantidade, OfPledge(h.pledge.status), h.createdAt,
          OrElse(if parent.Some? then Some(parent.value.titulo) else None, "Campanha removida"),
          TipoCampanha,
          None,
          if parent.Some? then Some(parent.value.id) else None)
  }

  /** `new Date(created_at || 0).getTime()`. */
  function Time(e: Entry): int {
    if e.createdAt.Some? then e.createdAt.value else 0
  }

  /** The raffle entries followed by the pledge entries, before sorting. */
  function Merge(tickets: seq<TicketHit>, pledges: seq<PledgeHit>): (r: seq<Entry>)
    ensures |r| == |tickets| + |pledges|
    ensures forall i :: 0 <= i < |tickets| ==> r[i] == TicketEntry(tickets[i])
    ensures forall j :: 0 <= j < |pledges| ==> r[|tickets| + j] == PledgeEntry(pledges[j])
  {
    seq(|tickets|, i requires 0 <= i < |tickets| => TicketEntry(tickets[i]))
    + seq(|pledges|, j requires 0 <= j < |pledges| => PledgeEntry(pledges[j]))
  }

  /**
   * The query function: fetch both lists (either fetch may report an error,
   * which fails the whole lookup, raffle tickets first), merge them and sort
   * newest first. Entries with equal times keep their merged order.
   */
  function Lookup(tickets: seq<TicketHit>, pledges: seq<PledgeHit>, cpf: string, telefone: string,
                  ticketsFail: bool, pledgesFail: bool): (r: Option<seq<Entry>>)
    ensures r.None? <==> ticketsFail || pledgesFail
    ensures r.Some? ==> SortedDesc(r.value, Time)
    ensures r.Some? ==>
              multiset(r.value) == multiset(Merge(MatchingTickets(tickets, cpf, telefone), MatchingPledges(pledges, cpf, telefone)))
  {
    if ticketsFail || pledgesFail then None
    else Some(Sort(Merge(MatchingTickets(tickets, cpf, telefone), MatchingPledges(pledges, cpf, telefone)), Time))
  }

  /** The lookup lists one entry per matching ticket and one per matching pledge. */
  lemma LookupSize(tickets: seq<TicketHit>, pledges: seq<PledgeHit>, cpf: string, telefone: string)
    ensures var r := Lookup(tickets, pledges, cpf, telefone, false, false);
            r.Some? && |r.value| == |MatchingTickets(tickets, cpf, telefone)| + |MatchingPledges(pledges, cpf, telefone)|
  {
    var r := Lookup(tickets, pledges, cpf, telefone, false, false);
    assert |multiset(r.value)| == |r.value|;
  }

  /** The lookup holds the same entries as the merged matches. */
  lemma LookupMembers(tickets: seq<TicketHit>, pledges: seq<PledgeHit>, cpf: string, telefone: string, e: Entry)
    ensures e in Lookup(tickets, pledges, cpf, telefone, false, false).value
            <==> e in Merge(MatchingTickets(tickets, cpf, telefone), MatchingPledges(pledges, cpf, telefone))
  {
    var merged := Merge(MatchingTickets(tickets, cpf, telefone), MatchingPledges(pledges, cpf, telefone));
    var r := Lookup(tickets, pledges, cpf, telefone, false, false).value;
    assert e in r <==> e in multiset(r);
    assert e in merged <==> e in multiset(merged);
  }

  /**
   * Every entry of the lookup comes from a row recorded under exactly this
   * cpf and phone: a raffle entry from a matching ticket, a campaign entry
   * from a matching pledge.
   */
  lemma LookupEntriesMatch(tickets: seq<TicketHit>, pledges: seq<PledgeHit>, cpf: string, telefone: string, e: Entry)
    requires e in Lookup(tickets, pledges, cpf, telefone, false, false).value
    ensures e.tipo == TipoRifa ==>
              exists h :: h in tickets && h.row.cpf == Some(cpf) && h.row.telefone == Some(telefone) && e == TicketEntry(h)
    ensures e.tipo == TipoCampanha ==>
              exists h :: h in pledges && h.pledge.cpf == cpf && h.pledge.telefone == telefone && e == PledgeEntry(h)
  {
    LookupMembers(tickets, pledges, cpf, telefone, e);
    MergeOrigin(MatchingTickets(tickets, cpf, telefone), MatchingPledges(pledges, cpf, telefone), e);
  }

  /** An entry of the merge comes from a ticket of the first list or a pledge of the second. */
  lemma MergeOrigin(mt: seq<TicketHit>, mp: seq<PledgeHit>, e: Entry)
    requires e in Merge(mt, mp)
    ensures e.tipo == TipoRifa ==> exists h :: h in mt && e == TicketEntry(h)
    ensures e.tipo == TipoCampanha ==> exists h :: h in mp && e == PledgeEntry(h)
  {
    var merged := Merge(mt, mp);
    var k :| 0 <= k < |merged| && merged[k] == e;
    if k < |mt| {
      assert mt[k] in mt;
    } else {
      assert mp[k - |mt|] in mp;
    }
  }

  lemma TicketInMerge(mt: seq<TicketHit>, mp: seq<PledgeHit>, h: TicketHit)
    requires h in mt
    ensures TicketEntry(h) in Merge(mt, mp)
  {
    var i :| 0 <= i < |mt| && mt[i] == h;
    assert Merge(mt, mp)[i] == TicketEntry(h);
  }

  lemma PledgeInMerge(mt: seq<TicketHit>, mp: seq<PledgeHit>, h: PledgeHit)
    requires h in mp
    ensures PledgeEntry(h) in Merge(mt, mp)
  {
    var j :| 0 <= j < |mp| && mp[j] == h;
    assert Merge(mt, mp)[|mt| + j] == PledgeEntry(h);
  }

  lemma TicketListed(tickets: seq<TicketHit>, pledges: seq<PledgeHit>, cpf: string, telefone: string, h: TicketHit)
    requires h in tickets && h.row.cpf == Some(cpf) && h.row.telefone == Some(telefone)
    ensures TicketEntry(h) in Lookup(tickets, pledges, cpf, telefone, false, false).value
  {
    TicketInMerge(MatchingTickets(tickets, cpf, telefone), MatchingPledges(pledges, cpf, telefone), h);
    LookupMembers(tickets, pledges, cpf, telefone, TicketEntry(h));
  }

  lemma PledgeListed(tickets: seq<TicketHit>, pledges: seq<PledgeHit>, cpf: string, telefone: string, h: PledgeHit)
    requires h in pledges && h.pledge.cpf == cpf && h.pledge.telefone == telefone
    ensures PledgeEntry(h) in Lookup(tickets, pledges, cpf, telefone, false, false).value
  {
    PledgeInMerge(MatchingTickets(tickets, cpf, telefone), MatchingPledges(pledges, cpf, telefone), h);
    LookupMembers(tickets, pledges, cpf, telefone, PledgeEntry(h));
  }

  /** Every matching ticket and pledge shows up in the lookup. */
  lemma LookupComplete(tickets: seq<TicketHit>, pledges: seq<PledgeHit>, cpf: string, telefone: string)
    ensures forall h :: h in tickets && h.row.cpf == Some(cpf) && h.row.telefone == Some(telefone) ==>
              TicketEntry(h) in Lookup(tickets, pledges, cpf, telefone, false, false).value
    ensures forall h :: h in pledges && h.pledge.cpf == cpf && h.pledge.telefone == telefone ==>
              PledgeEntry(h) in Lookup(tickets, pledges, cpf, telefone, false, false).value
  {
    forall h | h in tickets && h.row.cpf == Some(cpf) && h.row.telefone == Some(telefone)
      ensures TicketEntry(h) in Lookup(tickets, pledges, cpf, telefone, false, false).value
    {
      TicketListed(tickets, pledges, cpf, telefone, h);
    }
    forall h | h in pledges && h.pledge.cpf == cpf && h.pledge.telefone == telefone
      ensures PledgeEntry(h) in Lookup(tickets, pledges, cpf, telefone, false, false).value
    {
      PledgeListed(tickets, pledges, cpf, telefone, h);
    }
  }

  /** `enabled`: the query runs only after a search with both fields non-empty. */
  function Enabled(shouldSearch: bool, cpf: string, telefone: string): (on: bool)
    ensures on <==> shouldSearch && cpf != [] && telefone != []
  {
    shouldSearch && |cpf| > 0 && |telefone| > 0
  }
}
