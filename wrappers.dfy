/** The failure-carrying result type of the scoring pipeline and the kinds of failure
    the Python code raises as exceptions. */
module Wrappers {

  datatype Option<+T> = None | Some(value: T)

  /** One constructor per exception the scoring code raises. */
  datatype Error =
    | MissingKey      // ValueError: a dict lacks the key 'boxes' or 'labels'
    | LengthMismatch  // ValueError: the box, label and score counts differ
    | UnknownFileId   // AssertionError: a file id has no counterpart on the other side
    | ZeroUnion       // ZeroDivisionError in the IoU: the union area is 0
    | NoGroundTruth   // KeyError: recall of a class that has detections but no ground-truth count
    | NoClasses       // ZeroDivisionError in the mean: ground truth has no label at all
    | NoThresholds    // range mode over an empty threshold list: no result is ever bound

  datatype Result<+T> = Success(value: T) | Failure(error: Error)

  /** `f` applied to each element, in order. */
  function Results<A, T>(xs: seq<A>, f: A -> Result<T>): (rs: seq<Result<T>>)
    ensures |rs| == |xs|
  {
    if xs == [] then []
    else
      var n := |xs| - 1;
      Results(xs[..n], f) + [f(xs[n])]
  }

  lemma {:induction false} ResultsAt<A, T>(xs: seq<A>, f: A -> Result<T>, i: nat)
    requires i < |xs|
    ensures Results(xs, f)[i] == f(xs[i])
    decreases |xs|
  {
    var n := |xs| - 1;
    if i < n {
      ResultsAt(xs[..n], f, i);
    }
  }

  /** Results gathered in order; the first failure ends the run, as the first exception
      ends the Python loop. */
  function Collect<T>(rs: seq<Result<T>>): (r: Result<seq<T>>)
    ensures r.Success? ==> |r.value| == |rs|
  {
    if rs == [] then Success([])
    else
      var n := |rs| - 1;
      match Collect(rs[..n])
      case Failure(e) => Failure(e)
      case Success(vs) =>
        match rs[n]
        case Failure(e) => Failure(e)
        case Success(v) => Success(vs + [v])
  }

  /** A successful run holds every result's value at its position; a failed run carries
      the error of one of the results. */
  lemma {:induction false} CollectMeaning<T>(rs: seq<Result<T>>)
    ensures Collect(rs).Success? <==> forall i | 0 <= i < |rs| :: rs[i].Success?
    ensures Collect(rs).Success? ==> forall i | 0 <= i < |rs| :: rs[i] == Success(Collect(rs).value[i])
    ensures Collect(rs).Failure? ==> exists i | 0 <= i < |rs| :: rs[i] == Failure(Collect(rs).error)
    decreases |rs|
  {
    if rs != [] {
      var n := |rs| - 1;
      CollectMeaning(rs[..n]);
      assert forall i | 0 <= i < n :: rs[..n][i] == rs[i];
      if Collect(rs[..n]).Failure? {
        var i :| 0 <= i < n && rs[..n][i] == Failure(Collect(rs[..n]).error);
        assert rs[i] == Failure(Collect(rs).error);
      }
    }
  }

  /** A run that fails on a prefix fails on the whole sequence, with the same error. */
  lemma {:induction false} CollectPrefixFailure<T>(rs: seq<Result<T>>, m: nat)
    requires m <= |rs| && Collect(rs[..m]).Failure?
    ensures Collect(rs) == Collect(rs[..m])
    decreases |rs| - m
  {
    if m < |rs| {
      var n := |rs| - 1;
      assert rs[..n][..m] == rs[..m];
      CollectPrefixFailure(rs[..n], m);
    } else {
      assert rs[..m] == rs;
    }
  }

  /** One more result extends a successful run by its value, or ends it with its error. */
  lemma CollectSnoc<T>(rs: seq<Result<T>>, i: nat, vs: seq<T>)
    requires i < |rs| && Collect(rs[..i]) == Success(vs)
    ensures rs[i].Failure? ==> Collect(rs[..i + 1]) == Failure(rs[i].error)
    ensures rs[i].Success? ==> Collect(rs[..i + 1]) == Success(vs + [rs[i].value])
  {
    assert rs[..i + 1][..i] == rs[..i];
  }

  /** A run of one result is that result. */
  lemma CollectOne<A, T>(x: A, f: A -> Result<T>)
    ensures Collect(Results([x], f)) == match f(x) case Failure(e) => Failure(e) case Success(v) => Success([v])
  {
    var rs := Results([x], f);
    assert [x][..0] == [];
    assert rs == [f(x)];
    assert rs[..0] == [];
    CollectSnoc(rs, 0, []);
    assert rs[..1] == rs;
    if f(x).Success? {
      assert [] + [f(x).value] == [f(x).value];
    }
  }
}
