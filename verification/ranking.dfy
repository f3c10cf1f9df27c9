/**
 * The campaign page's figures: the buyer ranking (paid pledges grouped by
 * buyer name, quantities summed, sorted by total), the header's ticket
 * total, and the purchase box's amount and enabled state.
 */
module CampaignDetails {
  import opened Common
  import opened Schema
  import opened StableSort

  /** A ranking entry. `totalGasto` is declared but never accumulated. */
  datatype Comprador = Comprador(nome: string, totalBilhetes: int, totalGasto: int)

  /** `.eq("campanha_id", id).eq("status", "pago")`, in table order. */
  function PaidPledges(pledges: seq<Pledge>, campanhaId: string): (r: seq<Pledge>)
    ensures forall p :: p in r <==> p in pledges && p.campanhaId == campanhaId && p.status == Pago
    decreases |pledges|
  {
    if |pledges| == 0 then []
    else
      var rest := PaidPledges(pledges[1..], campanhaId);
      assert forall p :: p in pledges <==> p == pledges[0] || p in pledges[1..];
      if pledges[0].campanhaId == campanhaId && pledges[0].status == Pago then [pledges[0]] + rest else rest
  }

  /** The buyer names of a list of entries, in order. */
  function Names(acc: seq<Comprador>): (ns: seq<string>)
    ensures |ns| == |acc|
    ensures forall i :: 0 <= i < |acc| ==> ns[i] == acc[i].nome
  {
    seq(|acc|, i requires 0 <= i < |acc| => acc[i].nome)
  }

  /** The total of the entry named `n`, 0 when there is none (the first one, should there be several). */
  function TotalOf(acc: seq<Comprador>, n: string): int
    decreases |acc|
  {
    if |acc| == 0 then 0 else if acc[0].nome == n then acc[0].totalBilhetes else TotalOf(acc[1..], n)
  }

  /** Sum of quantities over the rows bought under the name `n`. */
  function SumFor(rows: seq<Pledge>, n: string): int
    decreases |rows|
  {
    if |rows| == 0 then 0 else SumFor(rows[..|rows| - 1], n) + (if rows[|rows| - 1].nomeComprador == n then rows[|rows| - 1].quantidade else 0)
  }

  /** Sum of quantities over all rows. */
  function SumAll(rows: seq<Pledge>): int
    decreases |rows|
  {
    if |rows| == 0 then 0 else SumAll(rows[..|rows| - 1]) + rows[|rows| - 1].quantidade
  }

  function Total(c: Comprador): int { c.totalBilhetes }

  /** Every entry's `totalGasto` is 0. */
  predicate NothingSpent(acc: seq<Comprador>) {
    forall i :: 0 <= i < |acc| ==> acc[i].totalGasto == 0
  }

  /**
   * One step of the reduce: the buyer's entry, created at the end with
   * totals 0 on first sight, gains `q` tickets.
   */
  function AddPurchase(acc: seq<Comprador>, nome: string, q: int): (r: seq<Comprador>)
    decreases |acc|
  {
    if |acc| == 0 then [Comprador(nome, q, 0)]
    else if acc[0].nome == nome then [acc[0].(totalBilhetes := acc[0].totalBilhetes + q)] + acc[1..]
    else [acc[0]] + AddPurchase(acc[1..], nome, q)
  }

  /** The step adds `q` to the buyer's total and leaves every other name's total alone. */
  lemma {:induction false} AddPurchaseTotals(acc: seq<Comprador>, nome: string, q: int, n: string)
    ensures TotalOf(AddPurchase(acc, nome, q), n) == TotalOf(acc, n) + (if n == nome then q else 0)
    decreases |acc|
  {
    if |acc| > 0 && acc[0].nome != nome {
      AddPurchaseTotals(acc[1..], nome, q, n);
      assert AddPurchase(acc, nome, q)[1..] == AddPurchase(acc[1..], nome, q);
    } else if |acc| > 0 {
      assert AddPurchase(acc, nome, q)[1..] == acc[1..];
    }
  }

  /** The step leaves the names as they were, or appends the buyer's name when it is new. */
  lemma {:induction false} AddPurchaseNameList(acc: seq<Comprador>, nome: string, q: int)
    ensures Names(AddPurchase(acc, nome, q)) == if nome in Names(acc) then Names(acc) else Names(acc) + [nome]
    decreases |acc|
  {
    var r := AddPurchase(acc, nome, q);
    if |acc| == 0 {
      assert Names(r) == [nome];
    } else if acc[0].nome == nome {
      assert Names(r) == Names(acc);
      assert nome == Names(acc)[0];
    } else {
      var rest := AddPurchase(acc[1..], nome, q);
      AddPurchaseNameList(acc[1..], nome, q);
      assert Names(r) == [acc[0].nome] + Names(rest);
      assert Names(acc) == [acc[0].nome] + Names(acc[1..]);
      assert nome in Names(acc) <==> nome in Names(acc[1..]);
    }
  }

  /** The step keeps one entry per name, adds the buyer's name, and nothing else. */
  lemma AddPurchaseNames(acc: seq<Comprador>, nome: string, q: int)
    requires NoDuplicates(Names(acc))
    ensures var r := AddPurchase(acc, nome, q);
      NoDuplicates(Names(r)) && forall n :: n in Names(r) <==> n == nome || n in Names(acc)
  {
    AddPurchaseNameList(acc, nome, q);
    var ns := Names(acc);
    if nome !in ns {
      var r := ns + [nome];
      forall i, j | 0 <= i < j < |r| ensures r[i] != r[j] {
        if j == |ns| { assert r[i] == ns[i]; }
      }
    }
  }

  /** The step adds `q` to the sum of totals and never touches `totalGasto`. */
  lemma {:induction false} AddPurchaseSums(acc: seq<Comprador>, nome: string, q: int)
    requires NothingSpent(acc)
    ensures var r := AddPurchase(acc, nome, q);
      SumBy(r, Total) == SumBy(acc, Total) + q && NothingSpent(r)
    decreases |acc|
  {
    var r := AddPurchase(acc, nome, q);
    if |acc| > 0 {
      assert NothingSpent(acc[1..]) by {
        forall i | 0 <= i < |acc| - 1 ensures acc[1..][i].totalGasto == 0 { assert acc[1..][i] == acc[i + 1]; }
      }
      if acc[0].nome == nome {
        assert r[1..] == acc[1..];
        forall i | 0 <= i < |r| ensures r[i].totalGasto == 0 { if i > 0 { assert r[i] == acc[i]; } }
      } else {
        var rest := AddPurchase(acc[1..], nome, q);
        AddPurchaseSums(acc[1..], nome, q);
        assert r[1..] == rest;
        forall i | 0 <= i < |r| ensures r[i].totalGasto == 0 { if i > 0 { assert r[i] == rest[i - 1]; } }
      }
    }
  }

  /** The reduce over the rows, in order: one entry per buyer name. */
  function Group(rows: seq<Pledge>): seq<Comprador>
    decreases |rows|
  {
    if |rows| == 0 then []
    else
      var last := rows[|rows| - 1];
      AddPurchase(Group(rows[..|rows| - 1]), last.nomeComprador, last.quantidade)
  }

  /** A buyer name occurs among the rows. */
  predicate Bought(rows: seq<Pledge>, n: string) {
    exists i :: 0 <= i < |rows| && rows[i].nomeComprador == n
  }

  /** The grouping has exactly one entry per name that occurs in the rows. */
  lemma {:induction false} GroupNames(rows: seq<Pledge>)
    ensures NoDuplicates(Names(Group(rows)))
    ensures forall n :: n in Names(Group(rows)) <==> Bought(rows, n)
    decreases |rows|
  {
    if |rows| > 0 {
      var init := rows[..|rows| - 1];
      var last := rows[|rows| - 1];
      GroupNames(init);
      AddPurchaseNames(Group(init), last.nomeComprador, last.quantidade);
      forall n ensures n in Names(Group(rows)) <==> Bought(rows, n) {
        if Bought(init, n) {
          var i :| 0 <= i < |init| && init[i].nomeComprador == n;
          assert rows[i].nomeComprador == n;
        }
        if Bought(rows, n) {
          var i :| 0 <= i < |rows| && rows[i].nomeComprador == n;
          if i < |init| { assert init[i].nomeComprador == n; }
        }
      }
    }
  }

  /** Each name's entry totals that buyer's quantities; the totals add up to all quantities; nothing is spent. */
  lemma {:induction false} GroupTotals(rows: seq<Pledge>)
    ensures forall n :: TotalOf(Group(rows), n) == SumFor(rows, n)
    ensures SumBy(Group(rows), Total) == SumAll(rows)
    ensures NothingSpent(Group(rows))
    decreases |rows|
  {
    if |rows| > 0 {
      var init := rows[..|rows| - 1];
      var last := rows[|rows| - 1];
      GroupTotals(init);
      AddPurchaseSums(Group(init), last.nomeComprador, last.quantidade);
      forall n ensures TotalOf(Group(rows), n) == SumFor(rows, n) {
        AddPurchaseTotals(Group(init), last.nomeComprador, last.quantidade, n);
      }
    }
  }

  /** `Object.values(grouped).sort((a, b) => b.total_bilhetes - a.total_bilhetes)`. */
  function Ranking(pledges: seq<Pledge>, campanhaId: string): seq<Comprador> {
    Sort(Group(PaidPledges(pledges, campanhaId)), Total)
  }

  /** Two equal positions put an element twice into the multiset. */
  lemma RepeatCounts<T>(t: seq<T>, i: nat, j: nat)
    requires i < j < |t|
    ensures t[i] == t[j] ==> multiset(t)[t[i]] >= 2
  {
    assert t == t[..j] + [t[j]] + t[j + 1..];
    assert t[i] in multiset(t[..j]) by { assert t[..j][i] == t[i]; }
    assert multiset(t) == multiset(t[..j]) + multiset{t[j]} + multiset(t[j + 1..]);
  }

  /** An element of a list without repeats occurs once in its multiset. */
  lemma {:induction false} DistinctCountsOnce<T>(s: seq<T>, k: nat)
    requires NoDuplicates(s) && k < |s|
    ensures multiset(s)[s[k]] == 1
  {
    var x := s[k];
    assert s == s[..k] + [x] + s[k + 1..];
    assert x !in s[..k] by {
      forall m | 0 <= m < k ensures s[..k][m] != x { assert s[..k][m] == s[m]; }
    }
    var tail := s[k + 1..];
    assert x !in tail by {
      forall m | 0 <= m < |tail| ensures tail[m] != x { assert tail[m] == s[k + 1 + m]; }
    }
    assert multiset(s) == multiset(s[..k]) + multiset{x} + multiset(s[k + 1..]);
  }

  /** A list without repeated elements keeps that property under any rearrangement. */
  lemma DistinctByMultiset<T>(s: seq<T>, t: seq<T>)
    requires NoDuplicates(s) && multiset(s) == multiset(t)
    ensures NoDuplicates(t)
  {
    forall i, j | 0 <= i < j < |t| ensures t[i] != t[j] {
      var x := t[i];
      assert x in multiset(t);
      var k :| 0 <= k < |s| && s[k] == x;
      DistinctCountsOnce(s, k);
      RepeatCounts(t, i, j);
    }
  }

  /** Entries with distinct names are distinct entries. */
  lemma DistinctNamesDistinct(g: seq<Comprador>)
    requires NoDuplicates(Names(g))
    ensures NoDuplicates(g)
  {
    forall i, j | 0 <= i < j < |g| ensures g[i] != g[j] {
      assert Names(g)[i] != Names(g)[j];
    }
  }

  /** The entry of a name occurring once is the entry TotalOf reads. */
  lemma {:induction false} TotalOfMember(g: seq<Comprador>, c: Comprador)
    requires NoDuplicates(Names(g)) && c in g
    ensures TotalOf(g, c.nome) == c.totalBilhetes
    decreases |g|
  {
    if g[0] != c {
      assert c in g[1..];
      assert NoDuplicates(Names(g[1..])) by {
        forall i, j | 0 <= i < j < |g| - 1 ensures Names(g[1..])[i] != Names(g[1..])[j] {
          assert Names(g)[i + 1] != Names(g)[j + 1];
        }
      }
      var k :| 0 <= k < |g| - 1 && g[1..][k] == c;
      assert Names(g)[0] != Names(g)[k + 1];
      TotalOfMember(g[1..], c);
    }
  }

  /**
   * The ranking counts only paid pledges: each entry carries that buyer's
   * summed paid quantity and nothing spent; it is sorted by total,
   * non-increasing, and its totals add up to all paid tickets.
   */
  lemma RankingTotals(pledges: seq<Pledge>, campanhaId: string)
    ensures var paid := PaidPledges(pledges, campanhaId);
      var r := Ranking(pledges, campanhaId);
      && SortedDesc(r, Total)
      && (forall c :: c in r ==> c.totalBilhetes == SumFor(paid, c.nome) && c.totalGasto == 0)
      && SumBy(r, Total) == SumAll(paid)
  {
    var paid := PaidPledges(pledges, campanhaId);
    var g := Group(paid);
    var r := Ranking(pledges, campanhaId);
    GroupNames(paid);
    GroupTotals(paid);
    SortSameElements(g, Total);
    SumBySort(g, Total, Total);
    forall c | c in r ensures c.totalBilhetes == SumFor(paid, c.nome) && c.totalGasto == 0 {
      TotalOfMember(g, c);
    }
  }

  /** In a list with one entry per name, the name determines the entry. */
  lemma NameDeterminesEntry(g: seq<Comprador>, a: Comprador, b: Comprador)
    requires NoDuplicates(Names(g)) && a in g && b in g
    ensures a.nome == b.nome ==> a == b
  {
    var i :| 0 <= i < |g| && g[i] == a;
    var j :| 0 <= j < |g| && g[j] == b;
    if i != j {
      assert Names(g)[i] != Names(g)[j] by {
        if i < j { assert Names(g)[i] != Names(g)[j]; } else { assert Names(g)[j] != Names(g)[i]; }
      }
    }
  }

  /** A rearrangement of a list with one entry per name still has one entry per name. */
  lemma {:induction false} DistinctNamesByMultiset(g: seq<Comprador>, r: seq<Comprador>)
    requires NoDuplicates(Names(g)) && multiset(g) == multiset(r)
    ensures NoDuplicates(Names(r))
  {
    DistinctNamesDistinct(g);
    DistinctByMultiset(g, r);
    forall i, j | 0 <= i < j < |r| ensures Names(r)[i] != Names(r)[j] {
      assert r[i] in multiset(g) && r[j] in multiset(g);
      NameDeterminesEntry(g, r[i], r[j]);
    }
  }

  /** A rearrangement has the same names. */
  lemma SameNamesByMultiset(g: seq<Comprador>, r: seq<Comprador>)
    requires multiset(g) == multiset(r)
    ensures forall n :: n in Names(r) <==> n in Names(g)
  {
    forall n ensures n in Names(r) <==> n in Names(g) {
      if n in Names(r) {
        var i :| 0 <= i < |r| && Names(r)[i] == n;
        assert r[i] in multiset(g);
        var j :| 0 <= j < |g| && g[j] == r[i];
        assert Names(g)[j] == n;
      }
      if n in Names(g) {
        var i :| 0 <= i < |g| && Names(g)[i] == n;
        assert g[i] in multiset(r);
        var j :| 0 <= j < |r| && r[j] == g[i];
        assert Names(r)[j] == n;
      }
    }
  }

  /** The ranking has exactly one entry per distinct buyer name among the paid pledges. */
  lemma RankingNames(pledges: seq<Pledge>, campanhaId: string)
    ensures var paid := PaidPledges(pledges, campanhaId);
      var r := Ranking(pledges, campanhaId);
      && NoDuplicates(Names(r))
      && (forall n :: n in Names(r) <==> Bought(paid, n))
  {
    var paid := PaidPledges(pledges, campanhaId);
    var g := Group(paid);
    var r := Ranking(pledges, campanhaId);
    GroupNames(paid);
    SameNamesByMultiset(g, r);
    DistinctNamesByMultiset(g, r);
  }

  /** Summing from the front: the first quantity plus the rest. */
  lemma {:induction false} SumAllCons(h: Pledge, t: seq<Pledge>)
    ensures SumAll([h] + t) == h.quantidade + SumAll(t)
    decreases |t|
  {
    if |t| > 0 {
      var init := t[..|t| - 1];
      SumAllCons(h, init);
      assert ([h] + t)[..|[h] + t| - 1] == [h] + init;
    }
  }

  /**
   * Over one campaign's pledges with no negative quantity, the paid
   * quantities sum to at most all quantities; when every quantity is
   * positive they sum to all of them exactly when every pledge is paid.
   */
  lemma {:induction false} PaidSumAtMostAll(pledges: seq<Pledge>, campanhaId: string)
    requires forall i :: 0 <= i < |pledges| ==> pledges[i].campanhaId == campanhaId && pledges[i].quantidade >= 0
    ensures SumAll(PaidPledges(pledges, campanhaId)) <= SumAll(pledges)
    ensures (forall i :: 0 <= i < |pledges| ==> pledges[i].quantidade > 0) ==>
              (SumAll(PaidPledges(pledges, campanhaId)) == SumAll(pledges) <==> forall i :: 0 <= i < |pledges| ==> pledges[i].status == Pago)
    decreases |pledges|
  {
    if |pledges| > 0 {
      var h := pledges[0];
      var t := pledges[1..];
      assert pledges == [h] + t;
      PaidSumAtMostAll(t, campanhaId);
      SumAllCons(h, t);
      if h.status == Pago {
        SumAllCons(h, PaidPledges(t, campanhaId));
        assert (forall i :: 0 <= i < |pledges| ==> pledges[i].status == Pago) <==> (forall i :: 0 <= i < |t| ==> t[i].status == Pago) by {
          forall i | 0 <= i < |t| ensures t[i] == pledges[i + 1] { }
        }
      }
    }
  }

  /**
   * The page header counts every ticket of the campaign, paid or not, so
   * it is never below the ranking's total; with positive quantities the two
   * agree exactly when every pledge is paid.
   */
  lemma HeaderTotalVersusRanking(pledges: seq<Pledge>, campanhaId: string)
    requires forall i :: 0 <= i < |pledges| ==> pledges[i].campanhaId == campanhaId && pledges[i].quantidade >= 0
    ensures SumBy(Ranking(pledges, campanhaId), Total) <= TotalBilhetes(pledges)
    ensures (forall i :: 0 <= i < |pledges| ==> pledges[i].quantidade > 0) ==>
              (SumBy(Ranking(pledges, campanhaId), Total) == TotalBilhetes(pledges) <==> forall i :: 0 <= i < |pledges| ==> pledges[i].status == Pago)
  {
    RankingTotals(pledges, campanhaId);
    PaidSumAtMostAll(pledges, campanhaId);
  }

  /** The header's ticket total: quantities of all the campaign's pledges, whatever their status. */
  function TotalBilhetes(pledges: seq<Pledge>): int
  {
    SumAll(pledges)
  }

  /** The purchase box: the amount for `quantidade` tickets, and whether the checkout button is enabled. */
  function PurchaseBox(quantidade: int, precoCents: int): (int, bool)
  {
    (quantidade * precoCents, quantidade >= 1)
  }
}
