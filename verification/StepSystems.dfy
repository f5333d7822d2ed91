/** Systems that take one step after the other. */
module StepSystems {

  /** Which steps are possible, and what each leads to. */
  datatype System<!S, !T> = System(enabled: (S, T) -> bool, next: (S, T) -> S)

  /** Taking `steps` one after the other leads from `s` to `s'`. */
  ghost predicate Runs<S, T>(sys: System<S, T>, s: S, steps: seq<T>, s': S)
    decreases |steps|
  {
    if steps == [] then s == s'
    else sys.enabled(s, steps[0]) && Runs(sys, sys.next(s, steps[0]), steps[1..], s')
  }

  lemma RunsNothing<S, T>(sys: System<S, T>, s: S)
    ensures Runs(sys, s, [], s)
  {
  }

  lemma RunsOne<S, T>(sys: System<S, T>, s: S, step: T)
    requires sys.enabled(s, step)
    ensures Runs(sys, s, [step], sys.next(s, step))
  {
    assert Runs(sys, sys.next(s, step), [step][1..], sys.next(s, step));
  }

  lemma {:induction false} RunsChain<S, T>(sys: System<S, T>, s: S, a: seq<T>, mid: S, b: seq<T>, s': S)
    requires Runs(sys, s, a, mid) && Runs(sys, mid, b, s')
    ensures Runs(sys, s, a + b, s')
    decreases |a|
  {
    if a == [] {
      assert a + b == b;
    } else {
      RunsChain(sys, sys.next(s, a[0]), a[1..], mid, b, s');
      assert (a + b)[1..] == a[1..] + b;
    }
  }

  /** The states a run passes through. */
  lemma {:induction false} RunsVisit<S, T>(sys: System<S, T>, s: S, steps: seq<T>, s': S) returns (states: seq<S>)
    requires Runs(sys, s, steps, s')
    ensures |states| == |steps| + 1 && states[0] == s && states[|steps|] == s'
    ensures forall i | 0 <= i < |steps| ::
              sys.enabled(states[i], steps[i]) && states[i + 1] == sys.next(states[i], steps[i])
    decreases |steps|
  {
    if steps == [] {
      states := [s];
    } else {
      var rest := RunsVisit(sys, sys.next(s, steps[0]), steps[1..], s');
      states := [s] + rest;
    }
  }
}
