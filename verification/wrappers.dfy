/** Failure-compatible wrappers shared by every module of the model: `Option` stands for a
    Java reference that may be null, `Result` for a computation that may throw. */
module Wrappers {

  datatype Option<+T> = None | Some(value: T) {

    function GetOr(default: T): T {
      match this
      case Some(v) => v
      case None => default
    }
  }

  datatype Result<+T, +E> = Ok(value: T) | Err(error: E) {

    predicate IsFailure() {
      Err?
    }

    function PropagateFailure<U>(): Result<U, E>
      requires Err?
    {
      Err(error)
    }

    function Extract(): T
      requires Ok?
    {
      value
    }

    /** The same outcome with the error translated by f. */
    function MapFailure<F>(f: E -> F): (r: Result<T, F>)
      ensures r.Ok? <==> Ok?
      ensures Ok? ==> r.value == value
      ensures Err? ==> r.error == f(error)
    {
      match this
      case Ok(v) => Ok(v)
      case Err(e) => Err(f(e))
    }
  }

  /** Applies f to the elements in order and collects the results; the first failure
      aborts and is the outcome. */
  function MapAll<A, B(==), E(==)>(f: A -> Result<B, E>, xs: seq<A>): (r: Result<seq<B>, E>)
    ensures r.Ok? <==> forall i :: 0 <= i < |xs| ==> f(xs[i]).Ok?
    ensures r.Ok? ==> |r.value| == |xs| && forall i :: 0 <= i < |xs| ==> f(xs[i]) == Ok(r.value[i])
    ensures r.Err? ==> exists i :: 0 <= i < |xs| && f(xs[i]) == Err(r.error) && forall j :: 0 <= j < i ==> f(xs[j]).Ok?
  {
    if |xs| == 0 then Ok([])
    else
      var rest := xs[1..];
      assert forall i :: 1 <= i < |xs| ==> rest[i - 1] == xs[i];
      match f(xs[0])
      case Err(e) => Err(e)
      case Ok(y) =>
        match MapAll(f, rest)
        case Err(e) =>
          var k :| 0 <= k < |rest| && f(rest[k]) == Err(e) && forall j :: 0 <= j < k ==> f(rest[j]).Ok?;
          assert f(xs[k + 1]) == Err(e);
          Err(e)
        case Ok(ys) =>
          Ok([y] + ys)
  }
}
