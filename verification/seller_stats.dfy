/**
 * The organiser's "Minhas Rifas" card for one raffle: sold and reserved
 * counters, the "Disponíveis" figure, collected and possible revenue, and
 * the buyer table showing the first five confirmed tickets.
 *
 * The card reads the raffle's embedded ticket rows as a list of
 * (number, row) pairs, in whatever order the query returns them.
 */
module SellerStats {
  import opened Common
  import opened Schema
  import opened RaffleTickets
  import Plans

  /** The rows of `rows` whose status is `s`, in order. */
  function WithStatus(rows: seq<(int, TicketRow)>, s: TicketStatus): (r: seq<(int, TicketRow)>)
    ensures |r| <= |rows|
    ensures forall x :: x in r <==> x in rows && x.1.status == s
    decreases |rows|
  {
    if |rows| == 0 then []
    else
      var rest := WithStatus(rows[1..], s);
      assert forall x :: x in rows <==> x == rows[0] || x in rows[1..];
      if rows[0].1.status == s then [rows[0]] + rest else rest
  }

  /** `bilhetesVendidos`: the confirmed rows. */
  function Vendidos(rows: seq<(int, TicketRow)>): seq<(int, TicketRow)> {
    WithStatus(rows, Confirmado)
  }

  /** `bilhetesReservados`: the reserved rows. */
  function Reservados(rows: seq<(int, TicketRow)>): seq<(int, TicketRow)> {
    WithStatus(rows, Reservado)
  }

  /** Every row is counted under exactly one of the three statuses. */
  lemma {:induction false} StatusPartition(rows: seq<(int, TicketRow)>)
    ensures |WithStatus(rows, Disponivel)| + |WithStatus(rows, Reservado)| + |WithStatus(rows, Confirmado)| == |rows|
    decreases |rows|
  {
    if |rows| > 0 {
      StatusPartition(rows[1..]);
    }
  }

  /** The sold and reserved lists share no row, and together are no longer than the raffle's rows. */
  lemma SoldAndReservedDisjoint(rows: seq<(int, TicketRow)>)
    ensures |Vendidos(rows)| + |Reservados(rows)| <= |rows|
    ensures forall x :: !(x in Vendidos(rows) && x in Reservados(rows))
  {
    StatusPartition(rows);
  }

  /** `totalArrecadado`: the number of confirmed rows times the ticket price, in cents. */
  function TotalArrecadado(rows: seq<(int, TicketRow)>, valorCents: int): int {
    |Vendidos(rows)| * valorCents
  }

  /** "Total possível": every ticket of the raffle sold at its price. */
  function TotalPossivel(quantidade: int, valorCents: int): int {
    quantidade * valorCents
  }

  /**
   * With a non-negative price, the collected amount is never negative, and
   * it stays within the possible one exactly as long as no more tickets are
   * sold than the raffle has.
   */
  lemma RevenueAtMostPossible(rows: seq<(int, TicketRow)>, quantidade: int, valorCents: int)
    requires valorCents >= 0
    ensures 0 <= TotalArrecadado(rows, valorCents)
    ensures |Vendidos(rows)| <= quantidade ==> TotalArrecadado(rows, valorCents) <= TotalPossivel(quantidade, valorCents)
    ensures valorCents > 0 && |Vendidos(rows)| > quantidade ==> TotalArrecadado(rows, valorCents) > TotalPossivel(quantidade, valorCents)
  {
    var v := |Vendidos(rows)|;
    if v <= quantidade {
      assert (quantidade - v) * valorCents >= 0;
    } else if valorCents > 0 {
      assert (v - quantidade) * valorCents > 0;
    }
  }

  /** A list has at least as many rows as distinct numbers. */
  lemma {:induction false} NumbersAtMostRows(rows: seq<(int, TicketRow)>)
    ensures |Numbers(rows)| <= |rows|
    decreases |rows|
  {
    if |rows| > 0 {
      var init := rows[..|rows| - 1];
      NumbersAtMostRows(init);
      assert Numbers(rows) == Numbers(init) + {rows[|rows| - 1].0} by {
        forall x | x in Numbers(rows) ensures x in Numbers(init) + {rows[|rows| - 1].0} {
          var i :| 0 <= i < |rows| && rows[i].0 == x;
          if i < |init| { assert init[i].0 == x; }
        }
        forall x | x in Numbers(init) ensures x in Numbers(rows) {
          var i :| 0 <= i < |init| && init[i].0 == x;
          assert rows[i].0 == x;
        }
      }
    }
  }

  /** Every confirmed number of the table is counted as sold by a listing of it. */
  lemma SoldCoversConfirmed(rows: seq<(int, TicketRow)>, t: Tickets, s: set<int>)
    requires Lists(rows, t)
    requires forall k :: k in s ==> k in t && t[k].status == Confirmado
    ensures |s| <= |Vendidos(rows)|
  {
    var v := Vendidos(rows);
    forall k | k in s ensures k in Numbers(v) {
      var i :| 0 <= i < |rows| && rows[i].0 == k;
      assert rows[i] in v;
      var j :| 0 <= j < |v| && v[j] == rows[i];
    }
    SubsetDifference(Numbers(v), s);
    NumbersAtMostRows(v);
  }

  /** "Disponíveis": the raffle's ticket quantity minus its rows of any status. */
  function Disponiveis(quantidade: int, rows: seq<(int, TicketRow)>): int {
    quantidade - |rows|
  }

  /** `rows` lists the table `t`: each number once, with its row, and nothing else. */
  predicate Lists(rows: seq<(int, TicketRow)>, t: Tickets) {
    && DistinctNumbers(rows)
    && Numbers(rows) == t.Keys
    && forall i :: 0 <= i < |rows| ==> rows[i].0 in t && t[rows[i].0] == rows[i].1
  }

  lemma {:induction false} DistinctNumbersCount(rows: seq<(int, TicketRow)>)
    requires DistinctNumbers(rows)
    ensures |Numbers(rows)| == |rows|
    decreases |rows|
  {
    if |rows| > 0 {
      var tail := rows[1..];
      assert DistinctNumbers(tail) by {
        forall i, j | 0 <= i < j < |tail| ensures tail[i].0 != tail[j].0 {
          assert tail[i] == rows[i + 1] && tail[j] == rows[j + 1];
        }
      }
      DistinctNumbersCount(tail);
      assert Numbers(rows) == {rows[0].0} + Numbers(tail) by {
        forall x | x in Numbers(rows) ensures x in {rows[0].0} + Numbers(tail) {
          var i :| 0 <= i < |rows| && rows[i].0 == x;
          if i > 0 { assert tail[i - 1].0 == x; }
        }
        forall x | x in Numbers(tail) ensures x in Numbers(rows) {
          var i :| 0 <= i < |tail| && tail[i].0 == x;
          assert rows[i + 1].0 == x;
        }
      }
      assert rows[0].0 !in Numbers(tail) by {
        forall i | 0 <= i < |tail| ensures tail[i].0 != rows[0].0 {
          assert tail[i] == rows[i + 1];
        }
      }
    }
  }

  /** A listing has exactly as many rows as the table has numbers. */
  lemma ListingSize(rows: seq<(int, TicketRow)>, t: Tickets)
    requires Lists(rows, t)
    ensures |rows| == |t|
  {
    DistinctNumbersCount(rows);
    assert |t.Keys| == |t|;
  }

  /** The numbers 1..n. */
  function Range(n: nat): (r: set<int>)
    ensures forall k :: k in r <==> 1 <= k <= n
    ensures |r| == n
    decreases n
  {
    if n == 0 then {} else Range(n - 1) + {n}
  }

  /**
   * When every row's number lies in 1..N, "Disponíveis" is the count of the
   * numbers in 1..N that have no row at all, whatever the statuses of the
   * rows that exist.
   */
  lemma AvailableCountsMissingRows(rows: seq<(int, TicketRow)>, t: Tickets, n: nat)
    requires Lists(rows, t)
    requires forall k :: k in t ==> 1 <= k <= n
    ensures Disponiveis(n, rows) == |set k | k in Range(n) && k !in t|
  {
    ListingSize(rows, t);
    assert (set k | k in Range(n) && k !in t) == Range(n) - t.Keys;
    assert t.Keys <= Range(n);
    SubsetDifference(Range(n), t.Keys);
  }

  lemma SubsetDifference(a: set<int>, b: set<int>)
    requires b <= a
    ensures |a - b| == |a| - |b|
  {
    assert a == b + (a - b);
    assert b * (a - b) == {};
  }

  /** Right after creation every ticket is available, yet the card shows 0 available. */
  lemma AvailableAfterCreation(rows: seq<(int, TicketRow)>, n: nat)
    requires Lists(rows, InitialTable(n))
    ensures Disponiveis(n, rows) == 0
    ensures |WithStatus(rows, Disponivel)| == n
  {
    ListingSize(rows, InitialTable(n));
    InitialTableSize(n);
    assert forall i :: 0 <= i < |rows| ==> rows[i].1 == AvailableRow;
    assert WithStatus(rows, Disponivel) == rows by {
      AllWithStatus(rows, Disponivel);
    }
  }

  lemma {:induction false} AllWithStatus(rows: seq<(int, TicketRow)>, s: TicketStatus)
    requires forall i :: 0 <= i < |rows| ==> rows[i].1.status == s
    ensures WithStatus(rows, s) == rows
    decreases |rows|
  {
    if |rows| > 0 {
      AllWithStatus(rows[1..], s);
      assert rows == [rows[0]] + rows[1..];
    }
  }

  /** The buyer table: its shown rows and the "+k compradores..." count, if any. */
  datatype BuyerTable = BuyerTable(shown: seq<(int, TicketRow)>, more: Option<nat>)

  /**
   * The buyer tab, present only when something was sold: the first five
   * confirmed rows, and the overflow label when more than five were sold.
   */
  function BuyerPanel(rows: seq<(int, TicketRow)>): (r: Option<BuyerTable>)
    ensures r.None? <==> forall x :: x in rows ==> x.1.status != Confirmado
    ensures r.Some? ==> |r.value.shown| <= 5 && |r.value.shown| <= |Vendidos(rows)|
    ensures r.Some? ==> forall i :: 0 <= i < |r.value.shown| ==> r.value.shown[i] == Vendidos(rows)[i]
    ensures r.Some? ==> forall x :: x in r.value.shown ==> x in rows && x.1.status == Confirmado
    ensures r.Some? ==> (r.value.more.Some? <==> |Vendidos(rows)| > 5)
    ensures r.Some? ==> |r.value.shown| + (if r.value.more.Some? then r.value.more.value else 0) == |Vendidos(rows)|
  {
    var sold := Vendidos(rows);
    if |sold| == 0 then
      assert forall x :: x !in sold;
      None
    else
      assert sold[0] in rows;
      var shown := Plans.Recent(sold, 5);
      assert forall x :: x in shown ==> x in sold;
      Some(BuyerTable(shown, if |sold| > 5 then Some(|sold| - 5) else None))
  }
}
