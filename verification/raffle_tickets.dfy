/**
 * One raffle's ticket table and the operations that write it: generation of
 * the rows 1..N when the raffle is created, the buyer's reservation of chosen
 * numbers, the payment webhook's automatic allocation of free numbers, and
 * the organiser's confirm / reject.
 *
 * The table maps a ticket number to its row; a number with no row has never
 * been inserted (or its row was deleted). Every insert is checked against the
 * (raffle, number) key: a number that already has a row makes the insert fail.
 */
module RaffleTickets {
  import opened Common
  import opened Schema

  /** Upper end of the webhook's scan for a number without a row. */
  const MaxScan := 99999

  /** The row creation writes for every number: available, no buyer. */
  const AvailableRow := TicketRow(Disponivel, None, None, None)

  /** A row carrying the buyer's name, cpf and phone. */
  function HolderRow(status: TicketStatus, b: Buyer): (row: TicketRow)
    ensures row.status == status
    ensures row.nomeComprador == Some(b.nome) && row.cpf == Some(b.cpf) && row.telefone == Some(b.telefone)
  {
    TicketRow(status, Some(b.nome), Some(b.cpf), Some(b.telefone))
  }

  /** The numbers of a batch of rows to insert. */
  function Numbers(rows: seq<(int, TicketRow)>): set<int> {
    set i | 0 <= i < |rows| :: rows[i].0
  }

  predicate DistinctNumbers(rows: seq<(int, TicketRow)>) {
    forall i, j :: 0 <= i < j < |rows| ==> rows[i].0 != rows[j].0
  }

  /**
   * A multi-row insert. It is one statement, so it adds every row or none; a
   * number that already has a row, or appears twice in the batch, fails it.
   */
  function InsertRows(t: Tickets, rows: seq<(int, TicketRow)>): (r: Option<Tickets>)
    ensures r.Some? <==> DistinctNumbers(rows) && forall i :: 0 <= i < |rows| ==> rows[i].0 !in t
    ensures r.Some? ==> r.value.Keys == t.Keys + Numbers(rows)
    ensures r.Some? ==> forall k :: k in t ==> r.value[k] == t[k]
    ensures r.Some? ==> forall i :: 0 <= i < |rows| ==> r.value[rows[i].0] == rows[i].1
    decreases |rows|
  {
    if |rows| == 0 then Some(t)
    else if rows[0].0 in t then None
    else
      var r := InsertRows(t[rows[0].0 := rows[0].1], rows[1..]);
      assert Numbers(rows) == {rows[0].0} + Numbers(rows[1..]) by {
        forall x | x in Numbers(rows) ensures x in {rows[0].0} + Numbers(rows[1..]) {
          var i :| 0 <= i < |rows| && rows[i].0 == x;
          if i > 0 { assert rows[1..][i - 1].0 == x; }
        }
      }
      r
  }

  /** Every listed number gets `row` (inserted or overwritten); nothing else changes. */
  function WithRows(t: Tickets, numbers: seq<int>, row: TicketRow): (r: Tickets)
    ensures forall k :: k in r <==> k in t || k in numbers
    ensures forall k :: k in numbers ==> r[k] == row
    ensures forall k :: k in t && k !in numbers ==> r[k] == t[k]
  {
    t + map k | k in numbers :: row
  }

  // ---------------------------------------------------------------- creation

  /** The rows the creation page builds for quantity `n`: numbers 1..n, available. */
  function NewTickets(n: int): (rows: seq<(int, TicketRow)>)
    ensures |rows| == (if n <= 0 then 0 else n)
    ensures forall i :: 0 <= i < |rows| ==> rows[i] == (i + 1, AvailableRow)
  {
    if n <= 0 then [] else NewTickets(n - 1) + [(n, AvailableRow)]
  }

  /** The table holding exactly the numbers 1..n, all available. */
  function InitialTable(n: int): (t: Tickets)
    ensures forall k :: k in t <==> 1 <= k <= n
    ensures forall k :: k in t ==> t[k] == AvailableRow
    decreases if n <= 0 then 0 else n
  {
    if n <= 0 then map[] else InitialTable(n - 1)[n := AvailableRow]
  }

  /** Inserting the generated rows into the new raffle's empty table yields exactly 1..n, available. */
  lemma NewTicketsFillTable(n: int)
    ensures InsertRows(map[], NewTickets(n)) == Some(InitialTable(n))
  {
    var rows := NewTickets(n);
    assert DistinctNumbers(rows);
    var r := InsertRows(map[], rows);
    var it := InitialTable(n);
    forall k | k in r.value ensures k in it && r.value[k] == it[k] {
      assert k in Numbers(rows);
      var i :| 0 <= i < |rows| && rows[i].0 == k;
    }
    forall k | k in it ensures k in r.value {
      assert rows[k - 1].0 == k;
    }
    assert r.value == it;
  }

  /** The initial table of quantity n has n rows (none when n <= 0). */
  lemma {:induction false} InitialTableSize(n: int)
    ensures |InitialTable(n)| == (if n <= 0 then 0 else n)
    decreases if n <= 0 then 0 else n
  {
    if n > 0 {
      InitialTableSize(n - 1);
      assert n !in InitialTable(n - 1);
    } else {
      assert InitialTable(n).Keys == {};
    }
  }

  // ------------------------------------------------------------- reservation

  /** Outcome of the buyer's reservation submit. */
  datatype ReserveOutcome =
    | Ignored                        // a submit was already in progress
    | CheckFailed                    // the existence query reported an error
    | AlreadySold(numbers: set<int>) // these selected numbers already have rows
    | InsertFailed                   // the insert reported an error
    | Reserved

  /** One reserved row per selected number, in selection order. */
  function ReservedRows(selected: seq<int>, b: Buyer): (rows: seq<(int, TicketRow)>)
    ensures |rows| == |selected|
    ensures forall i :: 0 <= i < |rows| ==> rows[i] == (selected[i], HolderRow(Reservado, b))
  {
    seq(|selected|, i requires 0 <= i < |selected| => (selected[i], HolderRow(Reservado, b)))
  }

  /**
   * The payment modal's submit: ignored while one is in progress; otherwise
   * ask which selected numbers already have a row (whatever its status),
   * refuse if any, else insert one reserved row per selected number.
   */
  function Reserve(t: Tickets, selected: seq<int>, b: Buyer, submitting: bool, checkFails: bool, insertFails: bool)
    : (r: (Tickets, ReserveOutcome))
    ensures submitting ==> r.1 == Ignored
    ensures r.1 != Reserved ==> r.0 == t
    ensures !submitting && !checkFails ==>
              (r.1.AlreadySold? <==> exists i :: 0 <= i < |selected| && selected[i] in t)
    ensures r.1.AlreadySold? ==> forall k :: k in r.1.numbers <==> k in selected && k in t
    ensures r.1 == Reserved <==>
              !submitting && !checkFails && !insertFails && NoDuplicates(selected)
              && forall i :: 0 <= i < |selected| ==> selected[i] !in t
    ensures r.1 == Reserved ==>
              && (forall k :: k in r.0 <==> k in t || k in selected)
              && (forall k :: k in t ==> r.0[k] == t[k])
              && (forall i :: 0 <= i < |selected| ==> selected[i] in r.0 && r.0[selected[i]] == HolderRow(Reservado, b))
  {
    if submitting then (t, Ignored)
    else if checkFails then (t, CheckFailed)
    else
      var taken := set k | k in selected && k in t;
      assert forall i :: 0 <= i < |selected| && selected[i] in t ==> selected[i] in taken by {
        assert forall i :: 0 <= i < |selected| ==> selected[i] in selected;
      }
      if taken != {} then
        (t, AlreadySold(taken))
      else if insertFails then (t, InsertFailed)
      else
        assert forall i :: 0 <= i < |selected| ==> selected[i] !in taken;
        ReservedRowsInsert(t, selected, b);
        match InsertRows(t, ReservedRows(selected, b))
        case Some(t') => (t', Reserved)
        case None => (t, InsertFailed)
  }

  /** Inserting the reserved rows succeeds exactly for new, distinct numbers, and then writes them and keeps the rest. */
  lemma ReservedRowsInsert(t: Tickets, selected: seq<int>, b: Buyer)
    ensures var r := InsertRows(t, ReservedRows(selected, b));
      && (r.Some? <==> NoDuplicates(selected) && forall i :: 0 <= i < |selected| ==> selected[i] !in t)
      && (r.Some? ==>
            && (forall k :: k in r.value <==> k in t || k in selected)
            && (forall k :: k in t ==> r.value[k] == t[k])
            && (forall i :: 0 <= i < |selected| ==> selected[i] in r.value && r.value[selected[i]] == HolderRow(Reservado, b)))
  {
    var rows := ReservedRows(selected, b);
    assert forall i :: 0 <= i < |selected| ==> rows[i].0 == selected[i];
    assert DistinctNumbers(rows) <==> NoDuplicates(selected);
    forall k | k in selected ensures k in Numbers(rows) {
      var i :| 0 <= i < |selected| && selected[i] == k;
      assert rows[i].0 == k;
    }
  }

  /** A selected number the corrected check refuses: it has a row that is no longer available. */
  predicate Taken(t: Tickets, n: int) {
    n in t && t[n].status != Disponivel
  }

  /**
   * The reservation as the creation page's pre-generated rows require: a
   * number is refused only when its row is reserved or confirmed, and the
   * accepted numbers are written whether or not they already have an
   * available row (one upsert, so a number listed twice fails it).
   */
  function ReserveIntended(t: Tickets, selected: seq<int>, b: Buyer, submitting: bool, checkFails: bool, insertFails: bool)
    : (r: (Tickets, ReserveOutcome))
    ensures submitting ==> r.1 == Ignored
    ensures r.1 != Reserved ==> r.0 == t
    ensures r.1.AlreadySold? ==> forall k :: k in r.1.numbers <==> k in selected && Taken(t, k)
    ensures r.1 == Reserved <==>
              !submitting && !checkFails && !insertFails && NoDuplicates(selected)
              && forall i :: 0 <= i < |selected| ==> !Taken(t, selected[i])
    ensures r.1 == Reserved ==>
              && (forall k :: k in r.0 <==> k in t || k in selected)
              && (forall k :: k in t && k !in selected ==> r.0[k] == t[k])
              && (forall i :: 0 <= i < |selected| ==> selected[i] in r.0 && r.0[selected[i]] == HolderRow(Reservado, b))
  {
    if submitting then (t, Ignored)
    else if checkFails then (t, CheckFailed)
    else
      var taken := set k | k in selected && Taken(t, k);
      assert forall i :: 0 <= i < |selected| && Taken(t, selected[i]) ==> selected[i] in taken by {
        assert forall i :: 0 <= i < |selected| ==> selected[i] in selected;
      }
      if taken != {} then (t, AlreadySold(taken))
      else if insertFails || !NoDuplicates(selected) then (t, InsertFailed)
      else (WithRows(t, selected, HolderRow(Reservado, b)), Reserved)
  }

  /** The amount the modal shows and encodes: the unit value in cents times the number of selected numbers. */
  function ValorTotal(valorCents: int, selected: seq<int>): (total: int)
    ensures total == 0 <==> valorCents == 0 || selected == []
  {
    valorCents * |selected|
  }

  // -------------------------------------------------------------- allocation

  /** `n` is the smallest number in 1..MaxScan that is not occupied. */
  predicate IsFirstFree(occupied: set<int>, n: int) {
    1 <= n <= MaxScan && n !in occupied && forall k :: 1 <= k < n ==> k in occupied
  }

  /** Every number the scan looks at is occupied. */
  predicate ScanFull(occupied: set<int>) {
    forall k :: 1 <= k <= MaxScan ==> k in occupied
  }

  /** The scan `for num = from..MaxScan: if num is not occupied, take it`. */
  function ScanFrom(occupied: set<int>, from: int): (r: Option<int>)
    requires 1 <= from <= MaxScan + 1
    ensures r.Some? ==> from <= r.value <= MaxScan && r.value !in occupied
                        && forall k :: from <= k < r.value ==> k in occupied
    ensures r.None? ==> forall k :: from <= k <= MaxScan ==> k in occupied
    decreases MaxScan + 1 - from
  {
    if from > MaxScan then None
    else if from !in occupied then Some(from)
    else ScanFrom(occupied, from + 1)
  }

  /**
   * The webhook's pick for the next ticket, given the numbers that already
   * have rows: 1 when there are none, else the first number of 1..MaxScan
   * without a row, falling back to 1 when there is none.
   */
  function NextNumber(occupied: set<int>): (n: int)
    ensures !ScanFull(occupied) ==> IsFirstFree(occupied, n)
    ensures ScanFull(occupied) ==> n == 1 && n in occupied
  {
    if occupied == {} then
      assert !(1 in occupied);
      1
    else
      match ScanFrom(occupied, 1)
      case Some(k) => k
      case None => 1
  }

  /** The numbers the loop inserted, in order, and whether it stopped on an error. */
  datatype Picks = Picks(inserted: seq<int>, failed: bool)

  /**
   * Iterations i..count-1 of the webhook loop, seen through the numbers that
   * have rows: each turn re-reads them, picks NextNumber and inserts it. An
   * insert error (the raffle does not exist, the number already has a row,
   * or the database fails at iteration `failAt`) stops the loop; the numbers
   * inserted before it stay.
   */
  function AllocateFrom(occupied: set<int>, i: nat, count: nat, raffleExists: bool, failAt: Option<nat>)
    : (r: Picks)
    ensures forall j :: 0 <= j < |r.inserted| ==> r.inserted[j] !in occupied && 1 <= r.inserted[j] <= MaxScan
    ensures r.failed ==> i + |r.inserted| < count
    ensures !r.failed ==> i + |r.inserted| == count || (i >= count && r.inserted == [])
    decreases count - i
  {
    if i >= count then Picks([], false)
    else
      var n := NextNumber(occupied);
      if !raffleExists || failAt == Some(i) || n in occupied then Picks([], true)
      else
        var rest := AllocateFrom(occupied + {n}, i + 1, count, raffleExists, failAt);
        Picks([n] + rest.inserted, rest.failed)
  }

  /** One turn of the loop that inserts: its pick, then the rest. */
  lemma AllocateStep(occupied: set<int>, i: nat, count: nat, raffleExists: bool, failAt: Option<nat>)
    requires i < count && raffleExists && failAt != Some(i) && NextNumber(occupied) !in occupied
    ensures var n := NextNumber(occupied);
      var r := AllocateFrom(occupied, i, count, raffleExists, failAt);
      var rest := AllocateFrom(occupied + {n}, i + 1, count, raffleExists, failAt);
      r.inserted == [n] + rest.inserted && r.failed == rest.failed
  {
  }

  /** Everything the loop picks lies above `n`, when `n` is occupied and everything below it too. */
  lemma {:induction false} PicksAbove(occupied: set<int>, n: int, i: nat, count: nat, raffleExists: bool, failAt: Option<nat>)
    requires forall k :: 1 <= k <= n ==> k in occupied
    ensures var s := AllocateFrom(occupied, i, count, raffleExists, failAt).inserted;
      forall j :: 0 <= j < |s| ==> s[j] > n
  {
    var s := AllocateFrom(occupied, i, count, raffleExists, failAt).inserted;
    forall j | 0 <= j < |s| ensures s[j] > n {
      assert s[j] !in occupied && 1 <= s[j];
    }
  }

  /** `s` strictly increases. */
  predicate Increasing(s: seq<int>) {
    forall j, j' :: 0 <= j < j' < |s| ==> s[j] < s[j']
  }

  lemma ConsIncreasing(n: int, rest: seq<int>)
    requires Increasing(rest) && forall j :: 0 <= j < |rest| ==> rest[j] > n
    ensures Increasing([n] + rest)
  {
    var s := [n] + rest;
    forall j, j' | 0 <= j < j' < |s| ensures s[j] < s[j'] {
      if j == 0 {
        assert s[j'] == rest[j' - 1];
      } else {
        assert s[j] == rest[j - 1] && s[j'] == rest[j' - 1];
      }
    }
  }

  /** The loop's picks strictly increase. */
  lemma {:induction false} AllocatesIncreasing(occupied: set<int>, i: nat, count: nat, raffleExists: bool, failAt: Option<nat>)
    ensures Increasing(AllocateFrom(occupied, i, count, raffleExists, failAt).inserted)
    decreases count - i
  {
    if i < count {
      var n := NextNumber(occupied);
      if raffleExists && failAt != Some(i) && n !in occupied {
        AllocateStep(occupied, i, count, raffleExists, failAt);
        AllocatesIncreasing(occupied + {n}, i + 1, count, raffleExists, failAt);
        assert IsFirstFree(occupied, n);
        PicksAbove(occupied + {n}, n, i + 1, count, raffleExists, failAt);
        ConsIncreasing(n, AllocateFrom(occupied + {n}, i + 1, count, raffleExists, failAt).inserted);
      }
    }
  }

  /** Every free number below a pick was picked before it. */
  predicate NoneSkipped(occupied: set<int>, s: seq<int>) {
    forall j, k :: 0 <= j < |s| && 1 <= k < s[j] && k !in occupied ==> k in s[..j]
  }

  lemma ConsNoneSkipped(occupied: set<int>, n: int, rest: seq<int>)
    requires NoneSkipped(occupied + {n}, rest)
    requires forall k :: 1 <= k < n ==> k in occupied
    ensures NoneSkipped(occupied, [n] + rest)
  {
    var s := [n] + rest;
    forall j, k | 0 <= j < |s| && 1 <= k < s[j] && k !in occupied ensures k in s[..j] {
      if k == n {
        assert s[0] == n;
      } else if j > 0 {
        assert s[j] == rest[j - 1];
        assert k !in occupied + {n};
        assert k in rest[..j - 1];
        assert s[..j] == [n] + rest[..j - 1];
      }
    }
  }

  /**
   * Each pick is the smallest number free at its turn: any number below it
   * was occupied before the loop or picked earlier by it.
   */
  lemma {:induction false} AllocatesSmallestFree(occupied: set<int>, i: nat, count: nat, raffleExists: bool, failAt: Option<nat>)
    ensures NoneSkipped(occupied, AllocateFrom(occupied, i, count, raffleExists, failAt).inserted)
    decreases count - i
  {
    if i < count {
      var n := NextNumber(occupied);
      if raffleExists && failAt != Some(i) && n !in occupied {
        AllocateStep(occupied, i, count, raffleExists, failAt);
        AllocatesSmallestFree(occupied + {n}, i + 1, count, raffleExists, failAt);
        assert IsFirstFree(occupied, n);
        ConsNoneSkipped(occupied, n, AllocateFrom(occupied + {n}, i + 1, count, raffleExists, failAt).inserted);
      }
    }
  }

  /** What the webhook loop did to one raffle's table. */
  datatype AllocResult = AllocResult(bilhetes: Tickets, inserted: seq<int>, failed: bool)

  /** The whole webhook loop inserting `count` copies of `row`. */
  function Allocate(t: Tickets, count: nat, row: TicketRow, raffleExists: bool, failAt: Option<nat>): (r: AllocResult)
    ensures |r.inserted| <= count
    ensures !r.failed ==> |r.inserted| == count
    ensures forall k :: k in t ==> k in r.bilhetes && r.bilhetes[k] == t[k]
    ensures forall k :: k in r.bilhetes <==> k in t || k in r.inserted
    ensures forall k :: k in r.inserted ==> k !in t && r.bilhetes[k] == row
  {
    var p := AllocateFrom(t.Keys, 0, count, raffleExists, failAt);
    AllocResult(WithRows(t, p.inserted, row), p.inserted, p.failed)
  }

  /** Numbers of 1..MaxScan that are not occupied. */
  function FreeNumbers(occupied: set<int>): set<int> {
    set k | 1 <= k <= MaxScan && k !in occupied
  }

  /**
   * With the raffle present, no database fault and at least as many free
   * numbers as tickets left to insert, the loop inserts all of them.
   */
  lemma {:induction false} AllocateCompletes(occupied: set<int>, i: nat, count: nat)
    requires |FreeNumbers(occupied)| >= count - i
    ensures !AllocateFrom(occupied, i, count, true, None).failed
    decreases count - i
  {
    if i < count {
      var n := NextNumber(occupied);
      var x :| x in FreeNumbers(occupied);
      assert !ScanFull(occupied) by { assert x !in occupied; }
      assert IsFirstFree(occupied, n);
      FreeNumbersTake(occupied, n);
      AllocateCompletes(occupied + {n}, i + 1, count);
    }
  }

  /** Occupying a free number removes exactly it from the free numbers. */
  lemma FreeNumbersTake(occupied: set<int>, n: int)
    requires n in FreeNumbers(occupied)
    ensures FreeNumbers(occupied + {n}) == FreeNumbers(occupied) - {n}
    ensures |FreeNumbers(occupied + {n})| == |FreeNumbers(occupied)| - 1
  {
    assert FreeNumbers(occupied + {n}) == FreeNumbers(occupied) - {n};
  }

  /** When exactly 1..m are occupied (m < MaxScan), the next pick is m + 1. */
  lemma NextNumberAfterPrefix(occupied: set<int>, m: nat)
    requires forall k :: k in occupied <==> 1 <= k <= m
    requires m < MaxScan
    ensures NextNumber(occupied) == m + 1
  {
    assert m + 1 !in occupied;
    assert !ScanFull(occupied);
    var n := NextNumber(occupied);
    assert IsFirstFree(occupied, n);
    assert n !in occupied;
  }

  /** When exactly 1..m are occupied (m + tickets left <= MaxScan), the loop inserts m+1, m+2, ... in order. */
  lemma {:induction false} AllocateAfterPrefix(occupied: set<int>, m: nat, i: nat, count: nat)
    requires forall k :: k in occupied <==> 1 <= k <= m
    requires i <= count && m + (count - i) <= MaxScan
    ensures var r := AllocateFrom(occupied, i, count, true, None);
      && !r.failed && |r.inserted| == count - i
      && forall j :: 0 <= j < count - i ==> r.inserted[j] == m + 1 + j
    decreases count - i
  {
    var r := AllocateFrom(occupied, i, count, true, None);
    if i < count {
      NextNumberAfterPrefix(occupied, m);
      var occ' := occupied + {m + 1};
      assert forall k :: k in occ' <==> 1 <= k <= m + 1;
      AllocateAfterPrefix(occ', m + 1, i + 1, count);
      var rest := AllocateFrom(occ', i + 1, count, true, None);
      assert r.inserted == [m + 1] + rest.inserted && r.failed == rest.failed;
      forall j | 0 <= j < count - i ensures r.inserted[j] == m + 1 + j {
        if j > 0 {
          assert r.inserted[j] == rest.inserted[j - 1];
        }
      }
    }
  }

  /** When every scanned number has a row, the fallback 1 collides and the first insert fails, changing nothing. */
  lemma FullTableAllocationFails(t: Tickets, count: nat, row: TicketRow, failAt: Option<nat>)
    requires ScanFull(t.Keys) && count > 0
    ensures var r := Allocate(t, count, row, true, failAt);
      r.failed && r.inserted == [] && r.bilhetes == t
  {
  }

  // ------------------------------------------------------ confirm and reject

  /** `update status where id = …`: sets the status of the row with that number, if there is one. */
  function SetStatus(t: Tickets, n: int, s: TicketStatus): (r: Tickets)
    ensures r.Keys == t.Keys
    ensures n in t ==> r[n] == t[n].(status := s)
    ensures forall k :: k in t && k != n ==> r[k] == t[k]
  {
    if n in t then t[n := t[n].(status := s)] else t
  }

  /** `delete where id = …`: the number no longer has a row. */
  function DeleteRow(t: Tickets, n: int): (r: Tickets)
    ensures n !in r
    ensures forall k :: k != n ==> (k in r <==> k in t)
    ensures forall k :: k in r ==> r[k] == t[k]
  {
    t - {n}
  }
}
