/** Batched registration of (matcher, alias) pairs and the matching batched wait. */
module InterceptMatchTuple {
  import opened Wrappers
  import opened Runner
  import Intercept

  /** `MatchTuple`: a route matcher and the alias it is registered under. */
  datatype MatchTuple = MatchTuple(matcher: RouteMatcher, alias: string)

  /** The rule a tuple is registered as: its matcher, no handler, its alias. */
  function TupleRegistration(t: MatchTuple): Registration
  {
    Registration(t.matcher, NoHandler, Some(t.alias))
  }

  /** The registrations a batch adds, one per tuple, in order. */
  function Registrations(tuples: seq<MatchTuple>): (rs: seq<Registration>)
    ensures |rs| == |tuples|
    ensures forall i :: 0 <= i < |tuples| ==>
      rs[i].matcher == tuples[i].matcher && rs[i].handler == NoHandler && rs[i].alias == Some(tuples[i].alias)
  {
    seq(|tuples|, i requires 0 <= i < |tuples| => TupleRegistration(tuples[i]))
  }

  /** `interceptMatchTuples`: registers each tuple in list order, each under its alias. */
  method InterceptMatchTuples(run: TestRun, queries: seq<MatchTuple>)
    modifies run
    ensures run.registry == old(run.registry) + Registrations(queries)
    ensures run.waits == old(run.waits)
  {
    for i := 0 to |queries|
      invariant run.registry == old(run.registry) + Registrations(queries[..i])
      invariant run.waits == old(run.waits)
    {
      assert Registrations(queries[..i + 1]) == Registrations(queries[..i]) + [TupleRegistration(queries[i])];
      run.Intercept(queries[i].matcher, NoHandler, Some(queries[i].alias));
    }
    assert queries[..|queries|] == queries;
  }

  /** The alias list `waitForMatchTuples` waits on: "@" + alias per tuple, in order, duplicates kept. */
  function WaitAliases(tuples: seq<MatchTuple>): (aliases: seq<string>)
    ensures |aliases| == |tuples|
    ensures forall i :: 0 <= i < |tuples| ==> aliases[i] == AliasRef(tuples[i].alias)
  {
    seq(|tuples|, i requires 0 <= i < |tuples| => AliasRef(tuples[i].alias))
  }

  /**
   * The `forEach` status check over the exchanges a wait yields: passes
   * when every one has status 200, otherwise fails at the first that does not.
   */
  method CheckStatuses(intercepts: seq<Interception>) returns (o: Outcome<nat>)
    ensures o.Pass? <==> forall i :: 0 <= i < |intercepts| ==> HasStatus200(intercepts[i])
    ensures o.Fail? ==> o.error < |intercepts| && !HasStatus200(intercepts[o.error])
    ensures o.Fail? ==> forall j :: 0 <= j < o.error ==> HasStatus200(intercepts[j])
  {
    var i := 0;
    while i < |intercepts|
      invariant 0 <= i <= |intercepts|
      invariant forall j :: 0 <= j < i ==> HasStatus200(intercepts[j])
    {
      if !HasStatus200(intercepts[i]) {
        return Fail(i);
      }
      i := i + 1;
    }
    return Pass;
  }

  /**
   * `waitForMatchTuples`: one wait on the batch's alias list, then the
   * status check over the exchanges the runner yields for it, one per alias.
   */
  method WaitForMatchTuples(run: TestRun, tuples: seq<MatchTuple>, intercepts: seq<Interception>) returns (o: Outcome<nat>)
    requires |intercepts| == |tuples|
    modifies run
    ensures run.waits == old(run.waits) + [WaitStep(WaitAliases(tuples), true)]
    ensures run.registry == old(run.registry)
    ensures o.Pass? <==> StepPasses(WaitStep(WaitAliases(tuples), true), intercepts)
    ensures o.Pass? <==> forall i :: 0 <= i < |intercepts| ==> HasStatus200(intercepts[i])
    ensures o.Fail? ==> o.error < |intercepts| && !HasStatus200(intercepts[o.error])
  {
    run.Wait(WaitAliases(tuples), true);
    o := CheckStatuses(intercepts);
  }

  /** Batches compose: registering or waiting on a concatenation is doing each part in turn. */
  lemma BatchesCompose(a: seq<MatchTuple>, b: seq<MatchTuple>)
    ensures Registrations(a + b) == Registrations(a) + Registrations(b)
    ensures WaitAliases(a + b) == WaitAliases(a) + WaitAliases(b)
  {
  }

  /** An empty batch registers nothing and waits on nothing. */
  lemma EmptyBatch()
    ensures Registrations([]) == [] && WaitAliases([]) == []
  {
  }

  /** Every alias a batch waits on names a rule the same batch registered. */
  lemma {:induction false} WaitedAliasesAreRegistered(tuples: seq<MatchTuple>, before: seq<Registration>)
    ensures forall i :: 0 <= i < |tuples| ==>
      WaitAliases(tuples)[i] == AliasRef(tuples[i].alias) && tuples[i].alias in RegisteredAliases(before + Registrations(tuples))
  {
    var after := before + Registrations(tuples);
    forall i | 0 <= i < |tuples|
      ensures tuples[i].alias in RegisteredAliases(after)
    {
      assert after[|before| + i].alias == Some(tuples[i].alias);
    }
  }
}
