// Optional values and results, used by every component of the model.
module Wrappers {

  datatype Option<+T> = None | Some(value: T) {
    function GetOr(default: T): T {
      match this
      case Some(v) => v
      case None => default
    }
  }

  datatype Result<+R, +E> = Success(value: R) | Failure(error: E)

  /** An arbitrary element, for walking a set in an arbitrary order. */
  method Any<K>(s: set<K>) returns (k: K)
    requires s != {}
    ensures k in s
  {
    k :| k in s;
  }

  /** The elements of a set, in some order. */
  lemma {:induction false} Listing<T>(ids: set<T>) returns (rows: seq<T>)
    ensures ids != {} ==> rows != []
    ensures forall id :: id in rows <==> id in ids
  {
    if ids == {} {
      rows := [];
    } else {
      var id :| id in ids;
      var rest := Listing(ids - {id});
      rows := [id] + rest;
    }
  }
}
