/** Small vocabulary shared by every module of the project. */
module Basics {

  datatype Option<+T> = None | Some(value: T)

  datatype Result<+T, +E> = Ok(value: T) | Err(error: E)

  function Last<T>(s: seq<T>): T
    requires s != []
  {
    s[|s| - 1]
  }

  function Init<T>(s: seq<T>): seq<T>
    requires s != []
  {
    s[..|s| - 1]
  }

  lemma AppendParts<T>(s: seq<T>, x: T)
    ensures Init(s + [x]) == s && Last(s + [x]) == x
  {
  }

  // ----- what a chain does from some candidate on ---------------------------------

  /** The files that are left, how it ends, and what was done; here with what was
      done earlier before it. */
  function Prefixed<F, E, A>(before: seq<A>, run: (F, E, seq<A>)): (F, E, seq<A>) {
    (run.0, run.1, before + run.2)
  }

  lemma PrefixedNothing<F, E, A>(run: (F, E, seq<A>))
    ensures Prefixed([], run) == run
  {
    assert [] + run.2 == run.2;
  }

  lemma PrefixedTwice<F, E, A>(before: seq<A>, more: seq<A>, run: (F, E, seq<A>))
    ensures Prefixed(before, Prefixed(more, run)) == Prefixed(before + more, run)
  {
    assert before + (more + run.2) == before + more + run.2;
  }
}

/** Budget days are ISO dates kept as strings; the ledger compares them as
    strings, so the order is the lexicographic one. */
module Days {

  type Day = string

  predicate Le(a: Day, b: Day) {
    a == [] || (b != [] && (a[0] < b[0] || (a[0] == b[0] && Le(a[1..], b[1..]))))
  }

  lemma LeReflexive(a: Day)
    ensures Le(a, a)
  {
  }

  lemma {:induction false} LeTransitive(a: Day, b: Day, c: Day)
    requires Le(a, b) && Le(b, c)
    ensures Le(a, c)
  {
    if a != [] && a[0] == b[0] && b[0] == c[0] {
      LeTransitive(a[1..], b[1..], c[1..]);
    }
  }

  lemma {:induction false} LeTotal(a: Day, b: Day)
    ensures Le(a, b) || Le(b, a)
    ensures Le(a, b) && Le(b, a) ==> a == b
  {
    if a != [] && b != [] && a[0] == b[0] {
      LeTotal(a[1..], b[1..]);
      assert a == [a[0]] + a[1..] && b == [b[0]] + b[1..];
    }
  }

  // ----- days of the calendar ---------------------------------------------------------

  /** Both are written with the same dashes, and digits elsewhere. */
  predicate SameShape(a: string, b: string) {
    |a| == |b| && forall i :: 0 <= i < |a| ==>
      if a[i] == '-' then b[i] == '-' else '0' <= a[i] <= '9' && '0' <= b[i] <= '9'
  }

  /** The number that the digits make, whatever dashes are between them. */
  function DigitsOf(s: string): int {
    if s == [] then 0
    else if s[|s| - 1] == '-' then DigitsOf(s[..|s| - 1])
    else 10 * DigitsOf(s[..|s| - 1]) + (s[|s| - 1] as int - '0' as int)
  }

  /** Dates are in the order in which their strings are: of two written alike, the
      earlier is the one whose digits, year before month before day, make the lesser
      number. */
  lemma {:induction false} DatesInOrder(a: string, b: string)
    requires SameShape(a, b)
    ensures Le(a, b) <==> DigitsOf(a) <= DigitsOf(b)
    ensures DigitsOf(a) == DigitsOf(b) ==> a == b
  {
    if a != [] {
      var x, y := a[..|a| - 1], b[..|b| - 1];
      DatesInOrder(x, y);
      LastDecides(x, y, a[|a| - 1], b[|b| - 1]);
      assert a == x + [a[|a| - 1]] && b == y + [b[|b| - 1]];
    }
  }

  /** Of strings of one length, the order of all but the last character decides, and
      the last one only between equals. */
  lemma {:induction false} LastDecides(x: string, y: string, c: char, e: char)
    requires |x| == |y|
    ensures Le(x + [c], y + [e]) <==> if x == y then c <= e else Le(x, y)
  {
    if x != [] {
      assert (x + [c])[1..] == x[1..] + [c] && (y + [e])[1..] == y[1..] + [e];
      LastDecides(x[1..], y[1..], c, e);
      assert x == [x[0]] + x[1..] && y == [y[0]] + y[1..];
    }
  }
}
