/**
 One job's deployment: the before-boot tasks inside the runner, the choice of one outcome phase, its
 tasks, and the state that is published (internal/jobs/manager.go, run and runTaskPhase).
 */
module OutcomeRun {
  import opened Text
  import opened OutcomeTasks

  datatype TaskState = Running | TaskSucceeded | TaskFailed | TaskCanceled

  datatype Result = Result(id: string, task: string, phase: Phase, state: TaskState)

  // What errors.Is can tell about an error.
  datatype Cause = Cancellation | Deadline | Failure

  datatype State = Succeeded | Failed | Canceled

  // The context a phase runs under: the runner's, which also has a deadline and is stopped when the
  // serial capture fails; the job's; or the five seconds granted to cancel tasks.
  datatype Context = Runner | OwnJob | Grace

  function StateAfter(error: Option<Cause>): TaskState {
    if error.None? then TaskSucceeded else if error == Some(Cancellation) then TaskCanceled else TaskFailed
  }

  // ----- The functions of the specification ------------------------------------------------------------

  // The outcome phase is chosen from the deployment alone, or its cancellation.
  function Selected(boot: Option<Cause>, canceled: bool): State {
    if canceled || boot == Some(Cancellation) then Canceled else if boot.Some? then Failed else Succeeded
  }

  function PhaseOf(outcome: State): Phase {
    match outcome
    case Succeeded => OnSuccess
    case Failed => OnFailure
    case Canceled => OnCancel
  }

  // The results of one phase: one for each task started, in plan order, all but the last succeeded.
  ghost predicate PhaseResults(rs: seq<Result>, phase: Phase, invocations: seq<Invocation>, complete: bool) {
    && |rs| <= |invocations|
    && (forall i | 0 <= i < |rs| :: rs[i].id == invocations[i].id && rs[i].task == invocations[i].task && rs[i].phase == phase && rs[i].state != Running)
    && (forall i | 0 <= i < |rs| - 1 :: rs[i].state == TaskSucceeded)
    && (complete <==> |rs| == |invocations| && (rs == [] || rs[|rs| - 1].state == TaskSucceeded))
  }

  // What may be in the record when the job is terminal.
  ghost predicate RecordOf(plan: Plan, results: seq<Result>, outcome: State, bootComplete: bool, hooksComplete: bool) {
    exists n: nat | n <= |results| ::
      && PhaseResults(results[..n], BeforeBoot, plan.beforeBoot, bootComplete)
      && PhaseResults(results[n..], PhaseOf(outcome), plan.In(PhaseOf(outcome)), hooksComplete)
  }

  // ----- Meaning of a record ------------------------------------------------------------------------------

  function IdsOf(rs: seq<Result>): set<string> {
    set r | r in rs :: r.id
  }

  lemma InvocationsDiffer(registry: Registry, plan: Plan, outcome: State, i: nat, j: nat)
    requires Acceptable(registry, plan)
    ensures i < j < |plan.beforeBoot| ==> plan.beforeBoot[i].id != plan.beforeBoot[j].id
    ensures var hooks := plan.In(PhaseOf(outcome));
      && (i < j < |hooks| ==> hooks[i].id != hooks[j].id)
      && (i < |plan.beforeBoot| && j < |hooks| ==> plan.beforeBoot[i].id != hooks[j].id)
  {
    var all, hooks, start := plan.All(), plan.In(PhaseOf(outcome)), HookStart(plan, outcome);
    assert DistinctIds(all);
    hide Acceptable, Plan.All, Plan.In, HookStart, DistinctIds;
    HooksInAll(plan, outcome);
    var b := |plan.beforeBoot|;
    if i < j < b {
      DistinctAt(all, i, j);
    }
    if i < j < |hooks| {
      DistinctAt(all, start + i, start + j);
    }
    if i < b && j < |hooks| {
      DistinctAt(all, i, start + j);
    }
  }

  lemma DistinctAt(invocations: seq<Invocation>, i: nat, j: nat)
    requires DistinctIds(invocations) && i < j < |invocations|
    ensures invocations[i].id != invocations[j].id
  {
  }

  function HookStart(plan: Plan, outcome: State): nat {
    match outcome
    case Succeeded => |plan.beforeBoot|
    case Failed => |plan.beforeBoot + plan.onSuccess|
    case Canceled => |plan.beforeBoot + plan.onSuccess + plan.onFailure|
  }

  lemma HooksInAll(plan: Plan, outcome: State)
    ensures var start, hooks := HookStart(plan, outcome), plan.In(PhaseOf(outcome));
      && |plan.beforeBoot| <= start && start + |hooks| <= |plan.All()|
      && (forall k | 0 <= k < |hooks| :: plan.All()[start + k] == hooks[k])
      && (forall k | 0 <= k < |plan.beforeBoot| :: plan.All()[k] == plan.beforeBoot[k])
  {
    var b, s, f, c := plan.beforeBoot, plan.onSuccess, plan.onFailure, plan.onCancel;
    Middle([], b, s + f + c);
    assert plan.All() == [] + b + (s + f + c);
    match outcome
    case Succeeded =>
      Middle(b, s, f + c);
      assert plan.All() == b + s + (f + c);
    case Failed =>
      Middle(b + s, f, c);
    case Canceled =>
      Middle(b + s + f, c, []);
      assert plan.All() == b + s + f + c + [];
  }

  lemma Middle<T>(before: seq<T>, s: seq<T>, after: seq<T>)
    ensures forall k | 0 <= k < |s| :: (before + s + after)[|before| + k] == s[k]
  {
  }

  // Each task ID at most once, results of at most two phases, none running, at most one unsuccessful
  // result in each phase, and that one last.
  lemma RecordIsOrderly(registry: Registry, plan: Plan, results: seq<Result>, outcome: State, bootComplete: bool, hooksComplete: bool)
    requires Acceptable(registry, plan) && RecordOf(plan, results, outcome, bootComplete, hooksComplete)
    ensures forall i, j | 0 <= i < j < |results| :: results[i].id != results[j].id
    ensures forall r <- results :: r.state != Running && (r.phase == BeforeBoot || r.phase == PhaseOf(outcome))
    ensures forall i, j | 0 <= i < j < |results| && results[i].phase == results[j].phase :: results[i].state == TaskSucceeded
  {
    var n: nat :| n <= |results|
      && PhaseResults(results[..n], BeforeBoot, plan.beforeBoot, bootComplete)
      && PhaseResults(results[n..], PhaseOf(outcome), plan.In(PhaseOf(outcome)), hooksComplete);
    hide Acceptable, RecordOf, PhaseResults, Plan.In;
    forall i | 0 <= i < |results| ensures results[i].state != Running && (results[i].phase == BeforeBoot || results[i].phase == PhaseOf(outcome)) {
      ResultAt(plan, results, outcome, bootComplete, hooksComplete, n, i);
    }
    forall i, j | 0 <= i < j < |results|
      ensures results[i].id != results[j].id && (results[i].phase == results[j].phase ==> results[i].state == TaskSucceeded)
    {
      ResultAt(plan, results, outcome, bootComplete, hooksComplete, n, i);
      ResultAt(plan, results, outcome, bootComplete, hooksComplete, n, j);
      InvocationsDiffer(registry, plan, outcome, if i < n then i else i - n, if j < n then j else j - n);
    }
  }

  // One result of a record whose before-boot part has `n`.
  lemma ResultAt(plan: Plan, results: seq<Result>, outcome: State, bootComplete: bool, hooksComplete: bool, n: nat, i: nat)
    requires n <= |results| && i < |results|
    requires PhaseResults(results[..n], BeforeBoot, plan.beforeBoot, bootComplete)
    requires PhaseResults(results[n..], PhaseOf(outcome), plan.In(PhaseOf(outcome)), hooksComplete)
    ensures results[i].state != Running && results[i].phase == if i < n then BeforeBoot else PhaseOf(outcome)
    ensures i < n ==> i < |plan.beforeBoot| && results[i].id == plan.beforeBoot[i].id && (i < n - 1 ==> results[i].state == TaskSucceeded)
    ensures n <= i ==> i - n < |plan.In(PhaseOf(outcome))| && results[i].id == plan.In(PhaseOf(outcome))[i - n].id && (i < |results| - 1 ==> results[i].state == TaskSucceeded)
  {
    ResultsAre(results[..n], BeforeBoot, plan.beforeBoot, bootComplete);
    ResultsAre(results[n..], PhaseOf(outcome), plan.In(PhaseOf(outcome)), hooksComplete);
    hide PhaseResults, Plan.In;
    if i < n {
      assert results[i] == results[..n][i];
    } else {
      assert results[i] == results[n..][i - n];
    }
  }

  lemma ResultsAre(rs: seq<Result>, phase: Phase, invocations: seq<Invocation>, complete: bool)
    requires PhaseResults(rs, phase, invocations, complete)
    ensures |rs| <= |invocations|
    ensures forall i | 0 <= i < |rs| :: rs[i].id == invocations[i].id && rs[i].phase == phase && rs[i].state != Running
    ensures forall i | 0 <= i < |rs| - 1 :: rs[i].state == TaskSucceeded
  {
  }

  // A succeeded job ran every before-boot task and every success task, each once, in plan order, and
  // all of them succeeded.
  lemma SuccessRanEverything(plan: Plan, results: seq<Result>)
    requires RecordOf(plan, results, Succeeded, true, true)
    ensures |results| == |plan.beforeBoot| + |plan.onSuccess|
    ensures forall i | 0 <= i < |results| :: results[i].state == TaskSucceeded && results[i].id == (plan.beforeBoot + plan.onSuccess)[i].id
  {
    var n: nat :| n <= |results|
      && PhaseResults(results[..n], BeforeBoot, plan.beforeBoot, true)
      && PhaseResults(results[n..], OnSuccess, plan.onSuccess, true);
    hide RecordOf;
    AllSucceeded(results[..n], BeforeBoot, plan.beforeBoot);
    AllSucceeded(results[n..], OnSuccess, plan.onSuccess);
    hide PhaseResults;
    forall i | 0 <= i < |results|
      ensures results[i].state == TaskSucceeded && results[i].id == (plan.beforeBoot + plan.onSuccess)[i].id
    {
      if i < n {
        assert results[i] == results[..n][i];
      } else {
        assert results[i] == results[n..][i - n];
      }
    }
  }

  lemma AllSucceeded(rs: seq<Result>, phase: Phase, invocations: seq<Invocation>)
    requires PhaseResults(rs, phase, invocations, true)
    ensures |rs| == |invocations| && forall i | 0 <= i < |rs| :: rs[i].state == TaskSucceeded && rs[i].id == invocations[i].id
  {
  }

  // The published state, given the boot's error, the hooks' error, and whether the job had been
  // cancelled when the phase was chosen and when the state was published.
  function Published(boot: Option<Cause>, hooks: Option<Cause>, early: bool, late: bool): State {
    if late then Canceled
    else if early || boot == Some(Cancellation) then Canceled
    else if boot.Some? then Failed
    else if hooks == Some(Cancellation) then Canceled
    else if hooks.Some? then Failed
    else Succeeded
  }

  lemma PublishedMeans(boot: Option<Cause>, hooks: Option<Cause>, early: bool, late: bool)
    requires early ==> late
    ensures Published(boot, hooks, early, late) == Succeeded <==> boot.None? && hooks.None? && !late
    ensures late ==> Published(boot, hooks, early, late) == Canceled
    ensures Selected(boot, early) == Canceled ==> Published(boot, hooks, early, late) == Canceled
    ensures Selected(boot, early) == Failed ==> Published(boot, hooks, early, late) == if late then Canceled else Failed
    ensures Published(boot, hooks, early, late) == Succeeded ==> Selected(boot, early) == Succeeded
    // A job nobody cancelled is published as canceled exactly when its runner, or else a success task,
    // itself returned a cancellation.
    ensures !late ==> (Published(boot, hooks, early, late) == Canceled <==> boot == Some(Cancellation) || (boot.None? && hooks == Some(Cancellation)))
  {
  }

  // ----- The run ----------------------------------------------------------------------------------------------

  // What the run meets: what task bodies return, by invocation; the runner's errors before and after
  // its tasks; and whether the serial capture may fail, a deadline pass, a cancellation arrive.
  datatype Script = Script(bodies: map<string, Cause>, before: Option<Cause>, after: Option<Cause>, captureFails: bool, slow: bool, cancellable: bool) {
    predicate Quiet() {
      !captureFails && !slow && !cancellable
    }
  }

  // The first error among the bodies of some tasks.
  function FirstError(bodies: map<string, Cause>, invocations: seq<Invocation>): Option<Cause> {
    if invocations == [] then None
    else if invocations[0].id in bodies then Some(bodies[invocations[0].id])
    else FirstError(bodies, invocations[1..])
  }

  lemma {:induction false} FirstErrorAt(bodies: map<string, Cause>, invocations: seq<Invocation>, k: nat)
    requires k <= |invocations| && FirstError(bodies, invocations[..k]).None?
    ensures FirstError(bodies, invocations) == FirstError(bodies, invocations[k..])
  {
    if k > 0 {
      assert invocations[..k][1..] == invocations[1..][..k - 1];
      FirstErrorAt(bodies, invocations[1..], k - 1);
      assert invocations[1..][k - 1..] == invocations[k..];
    }
  }

  lemma {:induction false} NoErrorNext(bodies: map<string, Cause>, invocations: seq<Invocation>, k: nat)
    requires k < |invocations| && FirstError(bodies, invocations[..k]).None? && invocations[k].id !in bodies
    ensures FirstError(bodies, invocations[..k + 1]).None?
  {
    if k > 0 {
      assert invocations[..k][1..] == invocations[1..][..k - 1];
      NoErrorNext(bodies, invocations[1..], k - 1);
      assert invocations[..k + 1][1..] == invocations[1..][..k];
    }
  }

  // The boot's error when nothing interferes.
  function QuietBoot(script: Script, plan: Plan): Option<Cause> {
    if script.before.Some? then script.before
    else if FirstError(script.bodies, plan.beforeBoot).Some? then FirstError(script.bodies, plan.beforeBoot)
    else script.after
  }

  class JobRun {
    const registry: Registry
    const plan: Plan
    const script: Script
    // The job's own context has been cancelled; it stays so.
    var canceled: bool
    // The execution context was stopped because the serial capture failed.
    var stopped: bool
    var results: seq<Result>
    var deploymentOutcome: Option<State>
    var taskErrors: nat
    var state: Option<State>

    constructor (registry: Registry, plan: Plan, script: Script)
      ensures this.registry == registry && this.plan == plan && this.script == script
      ensures !canceled && !stopped && results == [] && deploymentOutcome.None? && taskErrors == 0 && state.None?
    {
      this.registry, this.plan, this.script := registry, plan, script;
      stopped := false;
      canceled, results, deploymentOutcome, taskErrors, state := false, [], None, 0, None;
    }

    // Cancel may be accepted at any moment.
    method Tick()
      modifies this`canceled
      ensures old(canceled) ==> canceled
      ensures !script.cancellable ==> canceled == old(canceled)
    {
      var now: bool := *;
      canceled := canceled || (script.cancellable && now);
    }

    // Two states of a run, by what happens beside the tasks.
    twostate predicate Passed()
      reads this
    {
      && (old(canceled) ==> canceled) && (old(stopped) ==> stopped)
      && (!script.cancellable ==> canceled == old(canceled))
      && (!script.captureFails ==> stopped == old(stopped))
    }

    // Nothing but the task bodies decides a phase under this context.
    predicate Undisturbed(context: Context)
      reads this
    {
      match context
      case OwnJob => !canceled
      case Grace => !script.slow
      case Runner => !canceled && !stopped && !script.slow
    }

    method ContextError(context: Context) returns (error: Option<Cause>)
      modifies this`canceled, this`stopped
      ensures Passed() && (!context.Runner? ==> stopped == old(stopped))
      ensures context.OwnJob? ==> error == if canceled then Some(Cancellation) else None
      ensures context.Grace? ==> error.None? || error == Some(Deadline)
      ensures context.Runner? && (canceled || stopped) ==> error.Some?
      ensures Undisturbed(context) ==> error.None?
    {
      Tick();
      var expired: bool, fails: bool := *, *;
      stopped := stopped || (context.Runner? && script.captureFails && fails);
      error := match context
        case OwnJob => if canceled then Some(Cancellation) else None
        case Grace => if script.slow && expired then Some(Deadline) else None
        case Runner => if script.slow && expired then Some(Deadline) else if canceled || stopped then Some(Cancellation) else None;
    }

    // The observer of runTaskPhase: replace the result with this ID, or append.
    method Observe(r: Result)
      modifies this`results
      ensures forall i | 0 <= i < |old(results)| && old(results)[i].id == r.id && (forall k | 0 <= k < i :: old(results)[k].id != r.id) ::
        results == old(results)[i := r]
      ensures r.id !in IdsOf(old(results)) ==> results == old(results) + [r]
    {
      for i := 0 to |results|
        invariant results == old(results) && forall k | 0 <= k < i :: results[k].id != r.id
      {
        if results[i].id == r.id {
          assert results[i] in results;
          results := results[i := r];
          return;
        }
      }
      results := results + [r];
    }

    // One task, observed when it starts and when it ends.
    method RunOne(invocation: Invocation, phase: Phase, context: Context) returns (error: Option<Cause>)
      requires invocation.id !in IdsOf(results)
      modifies this`canceled, this`stopped, this`results
      ensures Passed() && (!context.Runner? ==> stopped == old(stopped))
      ensures results == old(results) + [Result(invocation.id, invocation.task, phase, StateAfter(error))]
      ensures var state := results[|results| - 1].state;
        && (state == TaskSucceeded <==> error.None?) && (state == TaskCanceled <==> error == Some(Cancellation)) && state != Running
      ensures error.None? ==> invocation.id !in script.bodies
      ensures Undisturbed(context) ==> error == FirstError(script.bodies, [invocation])
    {
      ghost var done := results;
      var result := Result(invocation.id, invocation.task, phase, Running);
      Observe(result);
      ghost var started := results;
      assert forall j | 0 <= j < |done| :: started[j] == done[j] && done[j] in done;
      error := RunTask(invocation.id, context);
      result := result.(state := StateAfter(error));
      assert started[|done|].id == result.id && forall j | 0 <= j < |done| :: started[j].id != result.id;
      Observe(result);
      assert results == started[|done| := result];
    }

    // One task body; an ended context overrides what it returned.
    method RunTask(id: string, context: Context) returns (error: Option<Cause>)
      modifies this`canceled, this`stopped
      ensures Passed() && (!context.Runner? ==> stopped == old(stopped))
      ensures error.None? ==> id !in script.bodies
      ensures Undisturbed(context) ==> error == if id in script.bodies then Some(script.bodies[id]) else None
    {
      error := if id in script.bodies then Some(script.bodies[id]) else None;
      var ended := ContextError(context);
      if ended.Some? {
        error := ended;
      }
    }

    // tasks.Run: sequential and fail-fast.
    method RunPhase(phase: Phase, context: Context) returns (error: Option<Cause>)
      requires Acceptable(registry, plan)
      requires forall i <- plan.In(phase) :: i.id !in IdsOf(results)
      modifies this`canceled, this`stopped, this`results
      ensures Passed() && (!context.Runner? ==> stopped == old(stopped))
      ensures |old(results)| <= |results| && results[..|old(results)|] == old(results)
      ensures PhaseResults(results[|old(results)|..], phase, plan.In(phase), error.None?)
      ensures error.None? ==> FirstError(script.bodies, plan.In(phase)).None?
      ensures Undisturbed(context) ==> error == FirstError(script.bodies, plan.In(phase))
    {
      hide Acceptable, PhaseResults, IdsOf, InvocationFits, FirstError, Plan.In;
      var invocations := plan.In(phase);
      var n := |results|;
      error := None;
      NothingRun(script.bodies, phase);
      assert results[n..] == [] && invocations[..0] == [];
      for k := 0 to |invocations|
        invariant Passed() && (!context.Runner? ==> stopped == old(stopped))
        invariant |results| == n + k && results[..n] == old(results) && error.None?
        invariant PhaseResults(results[n..], phase, invocations[..k], true)
        invariant FirstError(script.bodies, invocations[..k]).None?
      {
        ghost var done := results[n..];
        StoppedAt(done, phase, invocations, k);
        FirstErrorAt(script.bodies, invocations, k);
        InvocationFitsIn(registry, plan, phase, k);
        FreshId(registry, plan, phase, old(results), results, k);
        error := ContextError(context);
        if error.Some? {
          return;
        }
        var invocation := invocations[k];
        if !InvocationFits(registry, invocation) {
          // The plan was checked when the job was admitted.
          assert false;
        }
        error := RunOne(invocation, phase, context);
        NextResult(done, phase, invocations, k, error);
        assert results[n..] == done + [Result(invocation.id, invocation.task, phase, StateAfter(error))];
        OneError(script.bodies, invocations[k..]);
        if error.Some? {
          return;
        }
        NoErrorNext(script.bodies, invocations, k);
      }
      assert invocations[..|invocations|] == invocations;
    }

    // The runner: it may fail before it reaches the tasks and after them.  A capture that fails stops
    // it, and then its error does not count.
    method Boot() returns (error: Option<Cause>, booted: bool)
      requires Acceptable(registry, plan) && results == [] && !stopped && !canceled
      modifies this`canceled, this`stopped, this`results
      ensures Passed()
      ensures PhaseResults(results, BeforeBoot, plan.beforeBoot, booted)
      ensures error.None? ==> booted && script.before.None? && script.after.None?
      ensures script.Quiet() ==> error == QuietBoot(script, plan)
      ensures stopped ==> error == Some(Failure)
    {
      Tick();
      booted := plan.beforeBoot == [];
      error := script.before;
      if error.Some? {
        return;
      }
      error := RunPhase(BeforeBoot, Runner);
      booted := error.None?;
      assert results[0..] == results;
      if booted {
        var ended := ContextError(Runner);
        error := if ended.Some? then ended else script.after;
      }
      var fails: bool := *;
      if stopped || (script.captureFails && fails && error.None?) {
        error := Some(Failure);
      }
    }

    method Run() returns (boot: Option<Cause>, hooks: Option<Cause>, early: bool, booted: bool)
      requires Acceptable(registry, plan) && results == [] && taskErrors == 0 && !stopped && !canceled
      modifies this
      ensures early ==> canceled
      ensures !script.cancellable ==> !canceled
      ensures boot.None? ==> booted && script.before.None? && script.after.None?
      ensures script.Quiet() ==> boot == QuietBoot(script, plan)
      ensures boot.None? && !canceled ==> hooks == FirstError(script.bodies, plan.onSuccess)
      ensures boot.Some? && boot != Some(Cancellation) && !canceled ==> hooks == FirstError(script.bodies, plan.onFailure)
      ensures (early || boot == Some(Cancellation)) && !script.slow ==> hooks == FirstError(script.bodies, plan.onCancel)
      ensures deploymentOutcome == Some(Selected(boot, early))
      ensures deploymentOutcome == Some(Succeeded) <==> boot.None? && !early
      ensures deploymentOutcome == Some(Failed) <==> boot.Some? && boot != Some(Cancellation) && !early
      ensures deploymentOutcome == Some(Canceled) <==> early || boot == Some(Cancellation)
      ensures forall r <- results ::
        && (r.phase == OnSuccess ==> boot.None? && !early)
        && (r.phase == OnFailure ==> boot.Some? && boot != Some(Cancellation) && !early)
        && (r.phase == OnCancel ==> early || boot == Some(Cancellation))
      ensures RecordOf(plan, results, Selected(boot, early), booted, hooks.None?)
      ensures taskErrors == if hooks.Some? then 1 else 0
      ensures state == Some(Published(boot, hooks, early, canceled))
    {
      hide Acceptable, FirstError, PhaseResults, RecordOf, IdsOf, QuietBoot;
      boot, booted := Boot();
      Tick();
      early := canceled;
      ghost var n, first := |results|, results;
      assert results[..n] == first;
      Select(boot);
      HooksAreFresh(registry, plan, results, Selected(boot, early), booted);
      hooks := RunHooks();
      Publish(boot, hooks, early);
      RecordFrom(plan, results, n, Selected(boot, early), booted, hooks.None?);
      PhasesIn(plan, results, n, Selected(boot, early), booted, hooks.None?);
    }

    // The outcome of the deployment alone.
    method Select(boot: Option<Cause>)
      modifies this`deploymentOutcome
      ensures deploymentOutcome == Some(Selected(boot, canceled))
    {
      var error := boot;
      if canceled {
        error := Some(Cancellation);
      }
      var outcome := Succeeded;
      if error == Some(Cancellation) {
        outcome := Canceled;
      } else if error.Some? {
        outcome := Failed;
      }
      deploymentOutcome := Some(outcome);
    }

    // The tasks of that outcome, each phase under its own context.
    method RunHooks() returns (hooks: Option<Cause>)
      requires Acceptable(registry, plan) && deploymentOutcome.Some?
      requires forall i <- plan.In(PhaseOf(deploymentOutcome.value)) :: i.id !in IdsOf(results)
      modifies this`canceled, this`stopped, this`results, this`taskErrors
      ensures Passed() && stopped == old(stopped) && taskErrors == old(taskErrors) + if hooks.Some? then 1 else 0
      ensures |old(results)| <= |results| && results[..|old(results)|] == old(results)
      ensures PhaseResults(results[|old(results)|..], PhaseOf(deploymentOutcome.value), plan.In(PhaseOf(deploymentOutcome.value)), hooks.None?)
      ensures !canceled && deploymentOutcome == Some(Succeeded) ==> hooks == FirstError(script.bodies, plan.onSuccess)
      ensures !canceled && deploymentOutcome == Some(Failed) ==> hooks == FirstError(script.bodies, plan.onFailure)
      ensures deploymentOutcome == Some(Canceled) && !script.slow ==> hooks == FirstError(script.bodies, plan.onCancel)
    {
      hide Acceptable, FirstError, PhaseResults, IdsOf;
      var phase, context := PhaseOf(deploymentOutcome.value), if deploymentOutcome == Some(Canceled) then Grace else OwnJob;
      hooks := RunPhase(phase, context);
      if hooks.Some? {
        taskErrors := taskErrors + 1;
      }
    }

    // Terminal publication: a cancellation accepted by now wins.
    method Publish(boot: Option<Cause>, hooks: Option<Cause>, early: bool)
      requires early ==> canceled
      modifies this`canceled, this`state
      ensures (old(canceled) ==> canceled) && (!script.cancellable ==> canceled == old(canceled))
      ensures state == Some(Published(boot, hooks, early, canceled))
    {
      var error := if early then Some(Cancellation) else boot;
      if error.None? {
        error := hooks;
      }
      Tick();
      if canceled {
        error := Some(Cancellation);
      }
      state := Some(if error == Some(Cancellation) then Canceled else if error.Some? then Failed else Succeeded);
    }
  }

  // The results of a record by phase.
  lemma PhasesIn(plan: Plan, results: seq<Result>, n: nat, outcome: State, bootComplete: bool, hooksComplete: bool)
    requires n <= |results|
    requires PhaseResults(results[..n], BeforeBoot, plan.beforeBoot, bootComplete)
    requires PhaseResults(results[n..], PhaseOf(outcome), plan.In(PhaseOf(outcome)), hooksComplete)
    ensures forall r <- results ::
      && (r.phase == OnSuccess ==> outcome == Succeeded) && (r.phase == OnFailure ==> outcome == Failed) && (r.phase == OnCancel ==> outcome == Canceled)
  {
    hide PhaseResults, Plan.In;
    forall r | r in results ensures r.phase == BeforeBoot || r.phase == PhaseOf(outcome) {
      var i :| 0 <= i < |results| && results[i] == r;
      ResultAt(plan, results, outcome, bootComplete, hooksComplete, n, i);
    }
  }

  lemma RecordFrom(plan: Plan, results: seq<Result>, n: nat, outcome: State, bootComplete: bool, hooksComplete: bool)
    requires n <= |results|
    requires PhaseResults(results[..n], BeforeBoot, plan.beforeBoot, bootComplete)
    requires PhaseResults(results[n..], PhaseOf(outcome), plan.In(PhaseOf(outcome)), hooksComplete)
    ensures RecordOf(plan, results, outcome, bootComplete, hooksComplete)
  {
    hide PhaseResults;
  }

  // A run in which nobody cancels, every deadline holds and the deployment succeeds, published as
  // canceled: its one success task returns a cancellation of its own.
  method CanceledByItsTask() returns (run: JobRun)
    ensures run.script.Quiet() && !run.canceled && run.deploymentOutcome == Some(Succeeded) && run.state == Some(Canceled)
  {
    var invocation := Invocation("x", "t", Some(map[]));
    var registry: Registry := map["t" := Definition([], _ => true)];
    var plan := Plan(1, [], [invocation], [], []);
    assert plan.All() == [invocation];
    assert Identifier("x") && InvocationFits(registry, invocation);
    run := new JobRun(registry, plan, Script(map["x" := Cancellation], None, None, false, false, false));
    var boot, hooks, early, booted := run.Run();
  }

  lemma NothingRun(bodies: map<string, Cause>, phase: Phase)
    ensures PhaseResults([], phase, [], true) && FirstError(bodies, []).None?
  {
  }

  lemma OneError(bodies: map<string, Cause>, rest: seq<Invocation>)
    requires rest != []
    ensures FirstError(bodies, [rest[0]]) == if rest[0].id in bodies then Some(bodies[rest[0].id]) else None
    ensures rest[0].id in bodies ==> FirstError(bodies, rest) == Some(bodies[rest[0].id])
  {
    assert [rest[0]][1..] == [];
  }

  lemma InvocationFitsIn(registry: Registry, plan: Plan, phase: Phase, k: nat)
    requires Acceptable(registry, plan) && k < |plan.In(phase)|
    ensures InvocationFits(registry, plan.In(phase)[k])
  {
    hide InvocationFits;
    assert plan.In(phase)[k] in plan.All();
  }

  lemma StoppedAt(rs: seq<Result>, phase: Phase, invocations: seq<Invocation>, k: nat)
    requires k < |invocations| && PhaseResults(rs, phase, invocations[..k], true)
    ensures |rs| == k && PhaseResults(rs, phase, invocations, false)
  {
  }

  lemma NextResult(rs: seq<Result>, phase: Phase, invocations: seq<Invocation>, k: nat, error: Option<Cause>)
    requires k < |invocations| && PhaseResults(rs, phase, invocations[..k], true)
    ensures var more := rs + [Result(invocations[k].id, invocations[k].task, phase, StateAfter(error))];
      && (error.None? ==> PhaseResults(more, phase, invocations[..k + 1], true))
      && (error.Some? ==> PhaseResults(more, phase, invocations, false))
  {
  }

  lemma PhaseIdsDiffer(registry: Registry, plan: Plan, phase: Phase, i: nat, j: nat)
    requires Acceptable(registry, plan) && i < j < |plan.In(phase)|
    ensures plan.In(phase)[i].id != plan.In(phase)[j].id
  {
    var outcome := if phase.OnFailure? then Failed else if phase.OnCancel? then Canceled else Succeeded;
    InvocationsDiffer(registry, plan, outcome, i, j);
  }

  lemma FreshId(registry: Registry, plan: Plan, phase: Phase, before: seq<Result>, results: seq<Result>, k: nat)
    requires Acceptable(registry, plan) && k < |plan.In(phase)|
    requires |results| == |before| + k && results[..|before|] == before
    requires PhaseResults(results[|before|..], phase, plan.In(phase)[..k], true)
    requires forall i <- plan.In(phase) :: i.id !in IdsOf(before)
    ensures plan.In(phase)[k].id !in IdsOf(results)
  {
    var id := plan.In(phase)[k].id;
    forall r | r in results ensures r.id != id {
      var j :| 0 <= j < |results| && results[j] == r;
      if j < |before| {
        assert r == before[j] && r in before;
        assert plan.In(phase)[k] in plan.In(phase);
      } else {
        assert r == results[|before|..][j - |before|];
        PhaseIdsDiffer(registry, plan, phase, j - |before|, k);
      }
    }
  }

  lemma HooksAreFresh(registry: Registry, plan: Plan, results: seq<Result>, outcome: State, booted: bool)
    requires Acceptable(registry, plan) && PhaseResults(results, BeforeBoot, plan.beforeBoot, booted)
    ensures forall i <- plan.In(PhaseOf(outcome)) :: i.id !in IdsOf(results)
  {
    var hooks := plan.In(PhaseOf(outcome));
    forall i, r | i in hooks && r in results ensures i.id != r.id {
      var k :| 0 <= k < |hooks| && hooks[k] == i;
      var j :| 0 <= j < |results| && results[j] == r;
      InvocationsDiffer(registry, plan, outcome, j, k);
    }
  }
}
