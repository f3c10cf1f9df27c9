/** Small shared vocabulary: optional values and the truthiness of strings. */
module Common {

  /** A value that may be absent (a nullable column, a missing lookup). */
  datatype Option<+T> = None | Some(value: T)

  /** JavaScript treats the empty string as false; every other string is true. */
  predicate Truthy(s: string) {
    |s| > 0
  }

  /** `x || fallback` on a nullable string: null and "" both select the fallback. */
  function OrElse(x: Option<string>, fallback: string): (r: string)
    ensures x.Some? && Truthy(x.value) ==> r == x.value
    ensures x.None? || !Truthy(x.value) ==> r == fallback
  {
    match x
    case Some(s) => if Truthy(s) then s else fallback
    case None => fallback
  }

  /** Number of positions of `s` holding `x`. */
  function Count<T(==)>(s: seq<T>, x: T): (n: nat)
    ensures n <= |s|
    ensures n == 0 <==> x !in s
  {
    if |s| == 0 then 0 else (if s[0] == x then 1 else 0) + Count(s[1..], x)
  }

  /** The HTTP answer of an edge function: 200 "OK", or 500 with the error. */
  datatype Reply = Ok200 | Error500

  /** No value occurs twice. */
  predicate NoDuplicates<T(==)>(s: seq<T>) {
    forall i, j :: 0 <= i < j < |s| ==> s[i] != s[j]
  }
}
