/** The part of `summary` that sorts the records: the graph separates them
    into successes and errors by whether the stored code is the status 200,
    and the summary page counts the errors the same way. */
module Summary {
  import opened Results

  /** `result.Code == 200`. A failure object and the 0 a request that never
      finished still holds both count as errors. */
  predicate IsSuccess(r: Result)
  {
    r.code == Status(200)
  }

  /** A record that has been started but not answered still holds the code
      0, so `summary` counts it as an error. */
  lemma StartedIsError()
    ensures !Started.finished && !IsSuccess(Started)
    ensures forall results: seq<Result> :: Started in results ==> Started in Split(results).1
  {
  }

  /** The graph's loop over `results`: successes and errors, each in the order
      of the record list. */
  function Split(results: seq<Result>): (p: (seq<Result>, seq<Result>))
    ensures |p.0| + |p.1| == |results|
    ensures forall r :: r in p.0 <==> r in results && IsSuccess(r)
    ensures forall r :: r in p.1 <==> r in results && !IsSuccess(r)
    ensures multiset(p.0) + multiset(p.1) == multiset(results)
    decreases |results|
  {
    if results == [] then ([], [])
    else
      var init := results[..|results| - 1];
      var last := results[|results| - 1];
      assert results == init + [last];
      var p := Split(init);
      if IsSuccess(last) then (p.0 + [last], p.1) else (p.0, p.1 + [last])
  }

  /** Splitting one more record appends it to the side it belongs to. */
  lemma SplitSnoc(init: seq<Result>, last: Result)
    ensures var p := Split(init); var q := Split(init + [last]);
            q == if IsSuccess(last) then (p.0 + [last], p.1) else (p.0, p.1 + [last])
  {
    assert (init + [last])[..|init|] == init;
  }

  /** The error count of the summary page, counted with the page's loop. */
  method CountErrors(results: seq<Result>) returns (errors: nat)
    ensures errors == |Split(results).1|
    ensures errors <= |results|
  {
    errors := 0;
    var i := 0;
    while i < |results|
      invariant 0 <= i <= |results|
      invariant errors == |Split(results[..i]).1|
    {
      assert results[..i + 1] == results[..i] + [results[i]];
      SplitSnoc(results[..i], results[i]);
      if results[i].code != Status(200) {
        errors := errors + 1;
      }
      i := i + 1;
    }
    assert results[..i] == results;
  }

  /** The summary page reports no errors exactly when every record holds the
      status 200. */
  lemma NoErrorsIffAllSucceed(results: seq<Result>)
    ensures Split(results).1 == [] <==> forall i :: 0 <= i < |results| ==> IsSuccess(results[i])
  {
    if Split(results).1 != [] {
      var r := Split(results).1[0];
      assert r in Split(results).1;
    }
  }

}
