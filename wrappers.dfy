/** Option and Result, the stand-ins for Java's null and for a thrown exception. */
module Wrappers {

  /** A Java reference that may be null. */
  datatype Option<+T> = None | Some(value: T)

  /** The outcome of a Java call: a value, or the message of the exception it threw. */
  datatype Result<+T> = Ok(value: T) | Err(error: string) {

    predicate IsFailure() {
      Err?
    }

    function PropagateFailure<U>(): Result<U>
      requires Err?
    {
      Err(error)
    }

    function Extract(): T
      requires Ok?
    {
      value
    }
  }

  /** The values of a run of calls made in order, or the exception of the first call that threw. */
  function Gathered<T>(rs: seq<Result<T>>): (r: Result<seq<T>>)
    ensures r.Ok? ==> |r.value| == |rs|
  {
    if rs == [] then Ok([])
    else
      var before :- Gathered(rs[..|rs| - 1]);
      var last :- rs[|rs| - 1];
      Ok(before + [last])
  }

  /** The run succeeds exactly when every call does, and then yields every call's value in order. */
  lemma {:induction false} GatheredEveryValue<T>(rs: seq<Result<T>>)
    ensures Gathered(rs).Ok? <==> forall k :: 0 <= k < |rs| ==> rs[k].Ok?
    ensures Gathered(rs).Ok? ==> forall k :: 0 <= k < |rs| ==> Gathered(rs).value[k] == rs[k].value
    decreases |rs|
  {
    if rs != [] {
      var init := rs[..|rs| - 1];
      GatheredEveryValue(init);
      if Gathered(init).Err? {
        var j :| 0 <= j < |init| && init[j].Err?;
        assert rs[j].Err?;
      }
    }
  }

  /** A failed run failed with the exception of its first failing call. */
  lemma {:induction false} GatheredFirstFailure<T>(rs: seq<Result<T>>) returns (k: nat)
    requires Gathered(rs).Err?
    ensures k < |rs| && rs[k] == Err(Gathered(rs).error)
    ensures forall j :: 0 <= j < k ==> rs[j].Ok?
    decreases |rs|
  {
    var init := rs[..|rs| - 1];
    if Gathered(init).Err? {
      k := GatheredFirstFailure(init);
    } else {
      GatheredEveryValue(init);
      k := |rs| - 1;
    }
  }

  /** Once a prefix of the run has failed, the calls after it change nothing. */
  lemma {:induction false} GatheredFailurePersists<T>(rs: seq<Result<T>>, n: nat)
    requires n <= |rs| && Gathered(rs[..n]).Err?
    ensures Gathered(rs) == Gathered(rs[..n])
    decreases |rs|
  {
    if n < |rs| {
      var init := rs[..|rs| - 1];
      assert init[..n] == rs[..n];
      GatheredFailurePersists(init, n);
    } else {
      assert rs[..n] == rs;
    }
  }

  /** One more call extends a successful run by its value, or ends it with its exception. */
  lemma GatheredSnoc<T>(rs: seq<Result<T>>, n: nat, vs: seq<T>)
    requires n < |rs| && Gathered(rs[..n]) == Ok(vs)
    ensures rs[n].Ok? ==> Gathered(rs[..n + 1]) == Ok(vs + [rs[n].value])
    ensures rs[n].Err? ==> Gathered(rs[..n + 1]) == Err(rs[n].error)
  {
    assert rs[..n + 1][..n] == rs[..n];
  }
}
