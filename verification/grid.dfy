/**
 * The raffle page's number grid: clicking a number toggles it in the
 * buyer's selection, but only while the raffle is open and only for a number
 * whose ticket is listed as available. The grid shows 1 up to the largest
 * ticket number.
 */
module Grid {
  import opened Common
  import opened Schema

  /** A ticket as the grid receives it. */
  datatype GridTicket = GridTicket(numero: int, status: TicketStatus)

  /** `bilhetes.find(b => b.numero === n)`: the first ticket with that number. */
  function Find(bilhetes: seq<GridTicket>, n: int): (r: Option<GridTicket>)
    ensures r.None? <==> forall i :: 0 <= i < |bilhetes| ==> bilhetes[i].numero != n
    ensures r.Some? ==> exists i :: 0 <= i < |bilhetes| && bilhetes[i] == r.value && r.value.numero == n
                                    && forall j :: 0 <= j < i ==> bilhetes[j].numero != n
  {
    if |bilhetes| == 0 then None
    else if bilhetes[0].numero == n then Some(bilhetes[0])
    else
      var r := Find(bilhetes[1..], n);
      assert r.Some? ==> exists i :: 0 <= i < |bilhetes| && bilhetes[i] == r.value && r.value.numero == n
                                      && forall j :: 0 <= j < i ==> bilhetes[j].numero != n by {
        if r.Some? {
          var i :| 0 <= i < |bilhetes[1..]| && bilhetes[1..][i] == r.value && r.value.numero == n
                   && forall j :: 0 <= j < i ==> bilhetes[1..][j].numero != n;
          assert bilhetes[i + 1] == r.value;
          assert forall j :: 0 < j < i + 1 ==> bilhetes[j] == bilhetes[1..][j - 1];
        }
      }
      r
  }

  /** A click on `n` may change the selection: the raffle is open and n's ticket is available. */
  predicate Eligible(bilhetes: seq<GridTicket>, closed: bool, n: int) {
    !closed && Find(bilhetes, n).Some? && Find(bilhetes, n).value.status == Disponivel
  }

  /** `s.filter(x => x !== n)`. */
  function Without(s: seq<int>, n: int): (r: seq<int>)
    ensures n !in r
    ensures forall x :: x != n ==> (x in r <==> x in s)
    ensures |r| == |s| - Count(s, n)
    ensures n !in s ==> r == s
  {
    if |s| == 0 then []
    else if s[0] == n then Without(s[1..], n)
    else [s[0]] + Without(s[1..], n)
  }

  /** The selection after a click, and the value passed to `onNumeroSelect` (None: not called). */
  function Click(sel: seq<int>, bilhetes: seq<GridTicket>, closed: bool, n: int): (r: (seq<int>, Option<seq<int>>))
    ensures !Eligible(bilhetes, closed, n) ==> r == (sel, None)
    ensures Eligible(bilhetes, closed, n) ==> r.1 == Some(r.0)
    ensures Eligible(bilhetes, closed, n) && n in sel ==> n !in r.0 && forall x :: x != n ==> (x in r.0 <==> x in sel)
    ensures Eligible(bilhetes, closed, n) && n !in sel ==> r.0 == sel + [n]
  {
    if !Eligible(bilhetes, closed, n) then (sel, None)
    else
      var next := if n in sel then Without(sel, n) else sel + [n];
      (next, Some(next))
  }

  /** Removing every copy of a value keeps the rest in order, so a list without duplicates stays so. */
  lemma {:induction false} WithoutKeepsDistinct(s: seq<int>, n: int)
    requires NoDuplicates(s)
    ensures NoDuplicates(Without(s, n))
  {
    if |s| > 0 {
      WithoutKeepsDistinct(s[1..], n);
      if s[0] != n {
        var rest := Without(s[1..], n);
        assert s[0] !in s[1..];
        assert s[0] !in rest;
        var r := [s[0]] + rest;
        forall i, j | 0 <= i < j < |r| ensures r[i] != r[j] {
          if i == 0 { assert r[j] == rest[j - 1]; }
          else { assert r[i] == rest[i - 1] && r[j] == rest[j - 1]; }
        }
      }
    }
  }

  /** A click never puts a number into the selection twice. */
  lemma ClickKeepsDistinct(sel: seq<int>, bilhetes: seq<GridTicket>, closed: bool, n: int)
    requires NoDuplicates(sel)
    ensures NoDuplicates(Click(sel, bilhetes, closed, n).0)
  {
    if Eligible(bilhetes, closed, n) {
      if n in sel {
        WithoutKeepsDistinct(sel, n);
      } else {
        var r := sel + [n];
        forall i, j | 0 <= i < j < |r| ensures r[i] != r[j] {
          if j == |sel| { assert r[i] == sel[i]; }
        }
      }
    }
  }

  /** Clicking an unselected available number twice gives back the selection it started from. */
  lemma ClickTwiceRestores(sel: seq<int>, bilhetes: seq<GridTicket>, closed: bool, n: int)
    requires n !in sel
    ensures var once := Click(sel, bilhetes, closed, n).0;
      Click(once, bilhetes, closed, n).0 == sel
  {
    if Eligible(bilhetes, closed, n) {
      WithoutAppended(sel, n);
    }
  }

  lemma {:induction false} WithoutAppended(s: seq<int>, n: int)
    requires n !in s
    ensures Without(s + [n], n) == s
  {
    if |s| == 0 {
      assert s + [n] == [n];
      assert [n][1..] == [];
    } else {
      assert (s + [n])[1..] == s[1..] + [n];
      WithoutAppended(s[1..], n);
      assert s == [s[0]] + s[1..];
    }
  }

  /** `Math.max(...numeros, 0)`. */
  function MaxNumero(bilhetes: seq<GridTicket>): (m: int)
    ensures m >= 0
    ensures forall i :: 0 <= i < |bilhetes| ==> bilhetes[i].numero <= m
    ensures m == 0 || exists i :: 0 <= i < |bilhetes| && bilhetes[i].numero == m
  {
    if |bilhetes| == 0 then 0
    else
      var rest := MaxNumero(bilhetes[1..]);
      if bilhetes[0].numero > rest then bilhetes[0].numero
      else
        assert rest == 0 || exists i :: 0 <= i < |bilhetes| && bilhetes[i].numero == rest by {
          if rest != 0 {
            var i :| 0 <= i < |bilhetes[1..]| && bilhetes[1..][i].numero == rest;
            assert bilhetes[i + 1].numero == rest;
          }
        }
        rest
  }

  /** `todosNumeros`: the cells 1..max drawn, one per number. */
  function GridNumbers(bilhetes: seq<GridTicket>): (cells: seq<int>)
    ensures |cells| == MaxNumero(bilhetes)
    ensures forall i :: 0 <= i < |cells| ==> cells[i] == i + 1
    ensures bilhetes == [] ==> cells == []
  {
    seq(MaxNumero(bilhetes), i => i + 1)
  }
}
