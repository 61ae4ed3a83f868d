/** Option and Result: the value-or-absence and value-or-error shapes used across the pipeline. */
module Wrappers {

  datatype Option<+T> = None | Some(value: T)

  /** An operation that either yields a value or raises an error. */
  datatype Result<+T, +E> = Ok(value: T) | Err(error: E)

  /** Pairs a successful result with the position the parser reached. */
  function WithPos<T, E>(r: Result<T, E>, pos: nat): Result<(T, nat), E>
  {
    match r
    case Ok(v) => Ok((v, pos))
    case Err(e) => Err(e)
  }

  /** A successful list result with xs put in front; an error passes through. */
  function Prepend<T, E>(xs: seq<T>, r: Result<seq<T>, E>): Result<seq<T>, E>
  {
    match r
    case Ok(rest) => Ok(xs + rest)
    case Err(e) => Err(e)
  }

  lemma PrependNil<T, E>(r: Result<seq<T>, E>)
    ensures Prepend([], r) == r
  {
    if r.Ok? { assert [] + r.value == r.value; }
  }

  lemma PrependPrepend<T, E>(a: seq<T>, b: seq<T>, r: Result<seq<T>, E>)
    ensures Prepend(a, Prepend(b, r)) == Prepend(a + b, r)
  {
    if r.Ok? { assert a + (b + r.value) == (a + b) + r.value; }
  }

  /**
   * A loop that applies `f` to each element in turn, collecting the values,
   * and stops at the first error.
   */
  function Traverse<A, B, E>(xs: seq<A>, f: A -> Result<B, E>): Result<seq<B>, E>
  {
    if xs == [] then Ok([])
    else
      match f(xs[0])
      case Err(e) => Err(e)
      case Ok(y) => Prepend([y], Traverse(xs[1..], f))
  }

  /** One more step of the loop: the next value goes after those collected so far. */
  lemma TraverseStep<A, B, E>(xs: seq<A>, i: nat, f: A -> Result<B, E>, acc: seq<B>, y: B)
    requires i < |xs| && f(xs[i]) == Ok(y)
    ensures Prepend(acc, Traverse(xs[i..], f)) == Prepend(acc + [y], Traverse(xs[i + 1..], f))
  {
    assert xs[i..][1..] == xs[i + 1..];
    PrependPrepend(acc, [y], Traverse(xs[i + 1..], f));
  }

  /**
   * The loop succeeds exactly when `f` succeeds on every element; then it
   * yields one value per element, in order. Otherwise it fails with the
   * error of the first element `f` fails on.
   */
  lemma {:induction false} TraverseResult<A, B, E>(xs: seq<A>, f: A -> Result<B, E>)
    ensures Traverse(xs, f).Ok? <==> forall i :: 0 <= i < |xs| ==> f(xs[i]).Ok?
    ensures Traverse(xs, f).Ok? ==>
              |Traverse(xs, f).value| == |xs| &&
              forall i :: 0 <= i < |xs| ==> f(xs[i]) == Ok(Traverse(xs, f).value[i])
    ensures Traverse(xs, f).Err? ==>
              exists i :: 0 <= i < |xs| && f(xs[i]) == Err(Traverse(xs, f).error) &&
                          forall j :: 0 <= j < i ==> f(xs[j]).Ok?
  {
    if xs != [] {
      TraverseResult(xs[1..], f);
      var rest := Traverse(xs[1..], f);
      if f(xs[0]).Ok? && rest.Ok? {
        assert forall i :: 1 <= i < |xs| ==> xs[i] == xs[1..][i - 1];
      } else if f(xs[0]).Ok? {
        var k :| 0 <= k < |xs[1..]| && f(xs[1..][k]) == Err(rest.error) &&
                  forall j :: 0 <= j < k ==> f(xs[1..][j]).Ok?;
        assert xs[k + 1] == xs[1..][k];
        assert forall j :: 1 <= j < k + 1 ==> xs[j] == xs[1..][j - 1];
      }
    }
  }
}
