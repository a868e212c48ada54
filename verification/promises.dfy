/**
 * The settled state of an asynchronous computation, and `Promise.all`. Timing is
 * not modelled: a promise either resolved, rejected, or is still pending.
 */
module Promises {

  datatype Settled<+T, +E> = Resolved(value: T) | Rejected(error: E) | Pending

  /**
   * `Promise.all`: rejected as soon as one input rejects, resolved with all the
   * values in input order once every input resolved, pending otherwise. When
   * several inputs reject, the first in input order is reported.
   */
  function All<T, E>(ps: seq<Settled<T, E>>): (r: Settled<seq<T>, E>)
    ensures r.Rejected? <==> exists i :: 0 <= i < |ps| && ps[i].Rejected?
    ensures r.Rejected? ==>
              exists i :: 0 <= i < |ps| && ps[i] == Rejected(r.error) && forall j :: 0 <= j < i ==> !ps[j].Rejected?
    ensures r.Resolved? <==> forall i :: 0 <= i < |ps| ==> ps[i].Resolved?
    ensures r.Resolved? ==> |r.value| == |ps| && forall i :: 0 <= i < |ps| ==> ps[i] == Resolved(r.value[i])
  {
    if |ps| == 0 then Resolved([])
    else
      var rest := All(ps[1..]);
      match ps[0]
      case Rejected(e) => Rejected(e)
      case Pending => if rest.Rejected? then Rejected(rest.error) else Pending
      case Resolved(v) =>
        match rest
        case Resolved(vs) => Resolved([v] + vs)
        case Rejected(e) => Rejected(e)
        case Pending => Pending
  }
}
