/** Option and Result: the error returns of the Rust code and the exceptions of the Python code. */
module Wrappers {
  datatype Option<T> = None | Some(value: T)

  datatype Result<T, E> = Ok(value: T) | Err(error: E)

  /** The values of a list of results, None when one of them failed. */
  function Gathered<T>(xs: seq<Option<T>>): (r: Option<seq<T>>)
    ensures r.Some? <==> forall k :: 0 <= k < |xs| ==> xs[k].Some?
    ensures r.Some? ==> |r.value| == |xs| && forall k :: 0 <= k < |xs| ==> r.value[k] == xs[k].value
    decreases |xs|
  {
    if xs == [] then Some([])
    else match xs[0]
      case None => None
      case Some(v) =>
        match Gathered(xs[1..])
        case None =>
          assert !xs[1..][Witness(xs[1..])].Some?;
          None
        case Some(vs) => Some([v] + vs)
  }

  /** An index at which a list of results that does not gather holds a None. */
  function Witness<T>(xs: seq<Option<T>>): (k: nat)
    requires exists k :: 0 <= k < |xs| && xs[k].None?
    ensures k < |xs| && xs[k].None?
  {
    if xs[0].None? then 0
    else
      assert exists k :: 0 <= k < |xs[1..]| && xs[1..][k].None? by {
        var j :| 0 <= j < |xs| && xs[j].None?;
        assert xs[1..][j - 1] == xs[j];
      }
      1 + Witness(xs[1..])
  }

  /** A list of results that all succeeded gathers into their values. */
  lemma GatheredAll<T>(xs: seq<Option<T>>, vs: seq<T>)
    requires |xs| == |vs| && forall k :: 0 <= k < |xs| ==> xs[k] == Some(vs[k])
    ensures Gathered(xs) == Some(vs)
  {
    var r := Gathered(xs);
    assert r.Some? && |r.value| == |vs| && forall k :: 0 <= k < |vs| ==> r.value[k] == vs[k];
    assert r.value == vs;
  }

  /** One more result that succeeded extends the values gathered so far. */
  lemma GatheredStep<T>(xs: seq<Option<T>>, vs: seq<T>, v: T)
    requires |vs| < |xs| && xs[|vs|] == Some(v)
    requires forall k :: 0 <= k < |vs| ==> xs[k] == Some(vs[k])
    ensures forall k :: 0 <= k < |vs| + 1 ==> xs[k] == Some((vs + [v])[k])
  {
  }

  /** A list of results with one that raised gathers into None. */
  lemma GatheredNone<T>(xs: seq<Option<T>>, i: nat)
    requires i < |xs| && xs[i].None?
    ensures Gathered(xs) == None
  {
    assert !xs[i].Some?;
  }

  /** One element more of a sequence's prefix. */
  lemma TakeOneMore<T>(xs: seq<T>, n: nat)
    requires n < |xs|
    ensures xs[..n + 1] == xs[..n] + [xs[n]]
  {
  }
}
