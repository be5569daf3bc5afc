/** Small vocabulary shared by every part of the model. */
module Prelude {

  datatype Option<+T> = None | Some(value: T)

  datatype Result<+T, +E> = Ok(value: T) | Err(error: E)

  /** Concatenation of a sequence of sequences. */
  function Concat<T>(parts: seq<seq<T>>): seq<T> {
    if parts == [] then [] else parts[0] + Concat(parts[1..])
  }

  /** No element occurs twice. */
  ghost predicate Distinct<T>(s: seq<T>) {
    forall i, j | 0 <= i < j < |s| :: s[i] != s[j]
  }

  /** The elements of s that satisfy p, in order. */
  function Filter<T(!new)>(s: seq<T>, p: T -> bool): (r: seq<T>)
    ensures forall x :: x in r <==> x in s && p(x)
  {
    if s == [] then []
    else if p(s[0]) then [s[0]] + Filter(s[1..], p)
    else Filter(s[1..], p)
  }

  lemma {:induction false} FilterAppend<T(!new)>(a: seq<T>, b: seq<T>, p: T -> bool)
    ensures Filter(a + b, p) == Filter(a, p) + Filter(b, p)
  {
    if a == [] {
      assert a + b == b;
    } else {
      assert (a + b)[1..] == a[1..] + b;
      FilterAppend(a[1..], b, p);
    }
  }

  lemma LeadingElement<T>(s: seq<T>)
    ensures s != [] ==> s[0] in s
  {
  }

  /** A list parsed in steps: what was found, followed by what the rest yields, unless the rest is an error. */
  function After<T, E>(found: seq<T>, rest: Result<seq<T>, E>): Result<seq<T>, E> {
    match rest case Err(e) => Err(e) case Ok(more) => Ok(found + more)
  }

  lemma AfterNothing<T, E>(rest: Result<seq<T>, E>)
    ensures After([], rest) == rest
  {
    if rest.Ok? { assert [] + rest.value == rest.value; }
  }

  lemma NothingAfter<T, E>(found: seq<T>)
    ensures After<T, E>(found, Ok([])) == Ok(found)
  {
    assert found + [] == found;
  }

  lemma AfterOneMore<T, E>(found: seq<T>, x: T, rest: Result<seq<T>, E>)
    ensures After(found + [x], rest) == After(found, After([x], rest))
  {
    if rest.Ok? { assert (found + [x]) + rest.value == found + ([x] + rest.value); }
  }
}
