/** Optional values, for the source's `Option` results. */
module Wrappers {
  datatype Option<+T> = None | Some(value: T)

  /** Rust's `collect` into an `Option` of a vector: all the values when
      every element has one, nothing as soon as one is missing. */
  function CollectAll<T>(options: seq<Option<T>>): (r: Option<seq<T>>)
    ensures r.Some? <==> forall k :: 0 <= k < |options| ==> options[k].Some?
    ensures r.Some? ==> |r.value| == |options|
    ensures r.Some? ==> forall k :: 0 <= k < |options| ==> options[k] == Some(r.value[k])
  {
    if |options| == 0 then Some([])
    else
      var tail := options[1..];
      assert forall k :: 1 <= k < |options| ==> options[k] == tail[k - 1];
      match options[0]
        case None => None
        case Some(x) =>
          match CollectAll(tail)
            case None => None
            case Some(rest) =>
              var values := [x] + rest;
              assert forall k :: 1 <= k < |values| ==> values[k] == rest[k - 1];
              Some(values)
  }
}
