/** Failure-carrying values used across the model. */
module Wrappers {

  datatype Option<+T> = None | Some(value: T)

  /** The Go functions return `(value, error)`; a model function returns one of the two. */
  datatype Result<+T, +E> = Ok(value: T) | Err(error: E)

  /** `k` is the first position of `rs` that holds an error. */
  ghost predicate FirstErr<T, E>(rs: seq<Result<T, E>>, k: int) {
    0 <= k < |rs| && rs[k].Err? && forall j :: 0 <= j < k ==> rs[j].Ok?
  }

  /**
   * A loop that stops at the first error: all the values in order when every
   * step succeeded, otherwise the first error.
   */
  function AllOk<T, E>(rs: seq<Result<T, E>>): (r: Result<seq<T>, E>)
    ensures r.Ok? <==> forall i :: 0 <= i < |rs| ==> rs[i].Ok?
    ensures r.Ok? ==> |r.value| == |rs|
    ensures r.Ok? ==> forall i :: 0 <= i < |rs| ==> rs[i] == Ok(r.value[i])
    ensures r.Err? ==> exists k :: FirstErr(rs, k) && rs[k] == Err(r.error)
    decreases |rs|
  {
    if rs == [] then Ok([])
    else
      var init := rs[..|rs| - 1];
      assert forall i :: 0 <= i < |init| ==> init[i] == rs[i];
      match AllOk(init)
      case Err(e) => Err(e)
      case Ok(vs) =>
        match rs[|rs| - 1]
        case Err(e) => Err(e)
        case Ok(v) => Ok(vs + [v])
  }

  /** The first error is the one reported. */
  lemma AllOkFirstErr<T, E>(rs: seq<Result<T, E>>, k: int)
    requires FirstErr(rs, k)
    ensures AllOk(rs) == Err(rs[k].error)
  {
    var r := AllOk(rs);
    var k' :| FirstErr(rs, k') && rs[k'] == Err(r.error);
    assert k' == k;
  }

  /** When every step succeeded, the values are the ones reported. */
  lemma AllOkValues<T, E>(rs: seq<Result<T, E>>, vs: seq<T>)
    requires |vs| == |rs| && forall i :: 0 <= i < |rs| ==> rs[i] == Ok(vs[i])
    ensures AllOk(rs) == Ok(vs)
  {
    var r := AllOk(rs);
    assert r.value == vs;
  }

  /** One more successful step extends the values read so far. */
  lemma OkPrefixStep<T, E>(rs: seq<Result<T, E>>, vs: seq<T>, v: T)
    requires |vs| < |rs| && rs[|vs|] == Ok(v)
    requires forall j :: 0 <= j < |vs| ==> rs[j] == Ok(vs[j])
    ensures forall j :: 0 <= j < |vs| + 1 ==> rs[j] == Ok((vs + [v])[j])
  {
  }

  /** A failing step after successful ones is the error reported. */
  lemma ErrAfterOks<T, E>(rs: seq<Result<T, E>>, vs: seq<T>)
    requires |vs| < |rs| && rs[|vs|].Err?
    requires forall j :: 0 <= j < |vs| ==> rs[j] == Ok(vs[j])
    ensures AllOk(rs) == Err(rs[|vs|].error)
  {
    assert FirstErr(rs, |vs|);
    AllOkFirstErr(rs, |vs|);
  }
}
