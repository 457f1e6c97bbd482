/** Option and Result, the failure-carrying datatypes used throughout the model.
    Python's `None` becomes `None`, and a raised exception becomes `Failure`. */
module Wrappers {

  datatype Option<+T> = None | Some(value: T)

  /** Why a lowering step failed: the Python exception the source would raise. */
  datatype Error =
    | MissingKey(key: string)           // KeyError on `d["key"]`
    | NotAMapping                       // `.get` or `["key"]` applied to a non-dict element
    | NotIterable                       // `for x in v` over None, a bool or a number
    | NotAString                        // `.lower()` applied to a non-string type name
    | MissingAttribute(attribute: string) // AttributeError on a dataclass field that does not exist

  datatype Result<+R> = Success(value: R) | Failure(error: Error) {

    predicate IsFailure() {
      Failure?
    }

    function PropagateFailure<U>(): Result<U>
      requires Failure?
    {
      Failure(error)
    }

    function Extract(): R
      requires Success?
    {
      value
    }
  }

  /** `f` applied to every element in order, as a loop that raises on the
      first element `f` fails on: that failure is the result. */
  function MapAll<A, B>(xs: seq<A>, f: A -> Result<B>): (r: Result<seq<B>>)
    ensures r.Success? <==> forall i :: 0 <= i < |xs| ==> f(xs[i]).Success?
    ensures r.Success? ==> |r.value| == |xs|
    ensures r.Success? ==> forall i :: 0 <= i < |xs| ==> f(xs[i]) == Success(r.value[i])
  {
    if xs == [] then Success([])
    else
      var y :- f(xs[0]);
      var rest :- MapAll(xs[1..], f);
      Success([y] + rest)
  }
}
