/**
  A pass of the health or RED job: one check per (namespace, app) pair, in
  inventory order, where an exception from any check escapes the loops and
  ends the pass.
 */
module Passes {
  import opened Wrappers
  import opened Snapshot

  /** The result of each pair's check, in order; the first error ends the pass with it. */
  function Collect<T, E>(check: AppRef -> Result<T, E>, refs: seq<AppRef>): (r: Result<seq<T>, E>)
    ensures r.Ok? ==> |r.value| == |refs|
  {
    if refs == [] then Ok([])
    else
      var before :- Collect(check, refs[..|refs| - 1]);
      var last :- check(refs[|refs| - 1]);
      Ok(before + [last])
  }

  /** Once a prefix of the pairs fails, the pass fails with that prefix's error. */
  lemma {:induction false} CollectStopsAt<T, E>(check: AppRef -> Result<T, E>, refs: seq<AppRef>, k: nat)
    requires k <= |refs| && Collect(check, refs[..k]).Err?
    ensures Collect(check, refs) == Collect(check, refs[..k])
    decreases |refs|
  {
    if k < |refs| {
      var init := refs[..|refs| - 1];
      assert init[..k] == refs[..k];
      CollectStopsAt(check, init, k);
    } else {
      assert refs[..k] == refs;
    }
  }

  /**
    The pass succeeds exactly when every pair's check succeeds, and then its
    i-th result is the i-th pair's.
   */
  lemma {:induction false} CollectExact<T, E>(check: AppRef -> Result<T, E>, refs: seq<AppRef>)
    ensures Collect(check, refs).Ok? <==> forall i :: 0 <= i < |refs| ==> check(refs[i]).Ok?
    ensures Collect(check, refs).Ok? ==> forall i :: 0 <= i < |refs| ==> check(refs[i]) == Ok(Collect(check, refs).value[i])
  {
    if refs != [] {
      var n := |refs| - 1;
      var init := refs[..n];
      CollectExact(check, init);
      assert forall i :: 0 <= i < n ==> init[i] == refs[i];
    }
  }

  /** One more successful check extends the results by its own. */
  lemma CollectStep<T, E>(check: AppRef -> Result<T, E>, refs: seq<AppRef>, j: nat, results: seq<T>, v: T)
    requires j < |refs|
    requires Collect(check, refs[..j]) == Ok(results)
    requires check(refs[j]) == Ok(v)
    ensures Collect(check, refs[..j + 1]) == Ok(results + [v])
  {
    var prefix := refs[..j + 1];
    assert prefix[..|prefix| - 1] == refs[..j];
    assert prefix[|prefix| - 1] == refs[j];
  }

  /** A failing check right after a successful prefix ends the pass with its error. */
  lemma CollectFailsAt<T, E>(check: AppRef -> Result<T, E>, refs: seq<AppRef>, j: nat, e: E)
    requires j < |refs|
    requires Collect(check, refs[..j]).Ok?
    requires check(refs[j]) == Err(e)
    ensures Collect(check, refs) == Err(e)
  {
    var prefix := refs[..j + 1];
    assert prefix[..|prefix| - 1] == refs[..j];
    assert prefix[|prefix| - 1] == refs[j];
    CollectStopsAt(check, refs, j + 1);
  }

  /** A pass over a concatenation: the first part's error, else the second part's, else both results in order. */
  lemma {:induction false} CollectAppend<T, E>(check: AppRef -> Result<T, E>, a: seq<AppRef>, b: seq<AppRef>)
    ensures Collect(check, a).Err? ==> Collect(check, a + b) == Collect(check, a)
    ensures Collect(check, a).Ok? && Collect(check, b).Err? ==> Collect(check, a + b) == Collect(check, b)
    ensures Collect(check, a).Ok? && Collect(check, b).Ok? ==>
              Collect(check, a + b) == Ok(Collect(check, a).value + Collect(check, b).value)
    decreases |b|
  {
    if b == [] {
      assert a + b == a;
      if Collect(check, a).Ok? {
        assert Collect(check, a).value + [] == Collect(check, a).value;
      }
    } else {
      var n := |b| - 1;
      assert (a + b)[..|a + b| - 1] == a + b[..n];
      assert (a + b)[|a + b| - 1] == b[n];
      CollectAppend(check, a, b[..n]);
      if Collect(check, a).Ok? && Collect(check, b).Ok? {
        var ra, rb := Collect(check, a).value, Collect(check, b[..n]).value;
        var last := check(b[n]).value;
        assert Collect(check, b) == Ok(rb + [last]);
        assert Collect(check, a + b) == Ok((ra + rb) + [last]);
        assert (ra + rb) + [last] == ra + (rb + [last]);
      }
    }
  }

  /** An error while checking the apps of namespace i ends the pass over the whole inventory with it. */
  lemma CollectNamespaceFails<T, E>(check: AppRef -> Result<T, E>, namespaces: seq<Namespace>, i: nat)
    requires i < |namespaces|
    requires Collect(check, AppRefs(namespaces[..i])).Ok?
    requires Collect(check, RefsOf(namespaces[i])).Err?
    ensures Collect(check, AppRefs(namespaces)) == Collect(check, RefsOf(namespaces[i]))
  {
    AppRefsStep(namespaces, i);
    CollectAppend(check, AppRefs(namespaces[..i]), RefsOf(namespaces[i]));
    AppRefsPrefix(namespaces, i + 1);
    CollectStopsAt(check, AppRefs(namespaces), |AppRefs(namespaces[..i + 1])|);
  }

  /** Checking the apps of namespace i extends the results of the namespaces before it by theirs. */
  lemma CollectNamespaceStep<T, E>(check: AppRef -> Result<T, E>, namespaces: seq<Namespace>, i: nat, results: seq<T>)
    requires i < |namespaces|
    requires Collect(check, AppRefs(namespaces[..i])) == Ok(results)
    requires Collect(check, RefsOf(namespaces[i])).Ok?
    ensures Collect(check, AppRefs(namespaces[..i + 1])) == Ok(results + Collect(check, RefsOf(namespaces[i])).value)
  {
    AppRefsStep(namespaces, i);
    CollectAppend(check, AppRefs(namespaces[..i]), RefsOf(namespaces[i]));
  }
}
