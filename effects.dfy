/** What the suppliers do to the outside world, recorded as a trace of calls
    against the store clients, and the exceptions they raise. */
module Effects {
  import opened Values

  datatype Option<+T> = None | Some(value: T)

  /** Python truthiness of an optional string option: present and non-empty. */
  predicate Truthy(o: Option<string>) {
    o.Some? && o.value != ""
  }

  /** The exceptions a write or read can end in. `BackendError` is whatever a
      store client raised; `GenericException` is the bare `Exception` the
      key-value merge raises in its place. */
  datatype Exc =
    | NotImplementedError
    | EnvironmentError
    | ValueError
    | AttributeError
    | IndexError
    | KeyError
    | BackendError
    | GenericException

  datatype Result<+T> = Ok(value: T) | Err(exc: Exc)

  /** How a call that returns nothing ends: normally, or by raising. */
  datatype Outcome = Done | Raised(exc: Exc)

  datatype Level = Error | Critical

  /** One call issued against a store client (or a logger message at error
      or critical level). */
  datatype Call =
    | Connect(target: string)
    | Scan(start: Option<Record>, projection: Option<string>)
    | Put(item: Record)
    | UpdateItem(key: Record, expression: string, values: map<string, Value>)
    | Execute(statement: string)
    | ExecuteMany(statement: string, rows: seq<seq<Value>>)
    | Commit
    | Logged(level: Level)

  /** The calls a loop issued and how the loop ended. */
  datatype Run = Run(calls: seq<Call>, outcome: Outcome)

  /** Issues prepared calls one by one, in order. Preparing a call may itself
      have failed (`Err`), which ends the loop with that exception before the
      call is made; a call the store rejects (`fails`) has been made and ends
      the loop with `rejected`. */
  function Issue(reqs: seq<Result<Call>>, fails: Call -> bool, rejected: Exc): Run
    decreases |reqs|
  {
    if reqs == [] then Run([], Done)
    else match reqs[0]
      case Err(e) => Run([], Raised(e))
      case Ok(c) =>
        if fails(c) then Run([c], Raised(rejected))
        else
          var rest := Issue(reqs[1..], fails, rejected);
          Run([c] + rest.calls, rest.outcome)
  }

  /** One step of `Issue` from position `n` of the requests. */
  lemma IssueStep(reqs: seq<Result<Call>>, n: nat, fails: Call -> bool, rejected: Exc)
    requires n < |reqs|
    ensures var here := Issue(reqs[n..], fails, rejected);
            var next := Issue(reqs[n + 1..], fails, rejected);
            match reqs[n]
            case Err(e) => here == Run([], Raised(e))
            case Ok(c) => here == if fails(c) then Run([c], Raised(rejected)) else Run([c] + next.calls, next.outcome)
  {
    assert reqs[n..][0] == reqs[n] && reqs[n..][1..] == reqs[n + 1..];
  }

  /** The calls made are the first requests, in request order, and the loop
      ends normally exactly when every request is prepared and accepted, in
      which case every request was made. */
  lemma {:induction false} IssueInOrder(reqs: seq<Result<Call>>, fails: Call -> bool, rejected: Exc)
    ensures var run := Issue(reqs, fails, rejected);
      && |run.calls| <= |reqs|
      && (forall i :: 0 <= i < |run.calls| ==> reqs[i] == Ok(run.calls[i]))
      && (run.outcome == Done <==> forall i :: 0 <= i < |reqs| ==> reqs[i].Ok? && !fails(reqs[i].value))
      && (run.outcome == Done ==> |run.calls| == |reqs|)
    decreases |reqs|
  {
    if reqs != [] && reqs[0].Ok? && !fails(reqs[0].value) {
      var tail := reqs[1..];
      IssueInOrder(tail, fails, rejected);
      var rest := Issue(tail, fails, rejected);
      assert forall i :: 0 < i < |reqs| ==> reqs[i] == tail[i - 1];
      forall i | 0 <= i < |reqs| && rest.outcome == Done
        ensures reqs[i].Ok? && !fails(reqs[i].value)
      {
        if i > 0 { assert reqs[i] == tail[i - 1]; }
      }
    }
  }

  /** The loop stops at the first failure: every call but the last was
      accepted, and a raised outcome is either the preparation error of the
      next request or `rejected` for a last call the store refused. */
  lemma {:induction false} IssueStopsAtFirstFailure(reqs: seq<Result<Call>>, fails: Call -> bool, rejected: Exc)
    ensures var run := Issue(reqs, fails, rejected);
      && (forall i :: 0 <= i < |run.calls| - 1 ==> !fails(run.calls[i]))
      && (run.outcome == Done ==> forall i :: 0 <= i < |run.calls| ==> !fails(run.calls[i]))
      && (run.outcome.Raised? ==>
            || (|run.calls| < |reqs| && reqs[|run.calls|] == Err(run.outcome.exc))
            || (|run.calls| >= 1 && fails(run.calls[|run.calls| - 1]) && run.outcome == Raised(rejected)))
    decreases |reqs|
  {
    if reqs != [] && reqs[0].Ok? && !fails(reqs[0].value) {
      var tail := reqs[1..];
      IssueStopsAtFirstFailure(tail, fails, rejected);
      var rest := Issue(tail, fails, rejected);
      var run := Issue(reqs, fails, rejected);
      assert run.calls == [reqs[0].value] + rest.calls;
      assert forall i :: 0 < i < |run.calls| ==> run.calls[i] == rest.calls[i - 1];
      if |rest.calls| < |tail| {
        assert reqs[|run.calls|] == tail[|rest.calls|];
      }
    }
  }
}
