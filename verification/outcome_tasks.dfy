/**
 Deployment tasks and the outcome of a job: the plan check and the fail-fast phase runner of
 internal/tasks/tasks.go, and the selection of exactly one outcome phase in internal/jobs/manager.go.

 What a task body or the runner does is an arbitrary choice among success and the kinds of failure
 that the code tells apart; a cancellation may arrive before any step.
 */
module OutcomeTasks {
  import opened Text

  const MAX_INVOCATIONS := 64
  const SAFE_INTEGER := 9007199254740991.0

  // ----- Plans -----------------------------------------------------------------------------------

  datatype Value = Text(text: string) | Bool(flag: bool) | Number(number: real) | Other

  datatype Kind = StringKind | BooleanKind | IntegerKind | NumberKind

  datatype Parameter = Parameter(name: string, kind: Kind, required: bool, options: seq<Value>)

  // `accepts` is the task's own check of its parameters.
  datatype Definition = Definition(parameters: seq<Parameter>, accepts: map<string, Value> -> bool)

  type Registry = map<string, Definition>

  datatype Invocation = Invocation(id: string, task: string, parameters: Option<map<string, Value>>)

  datatype Phase = BeforeBoot | OnSuccess | OnFailure | OnCancel

  datatype Plan = Plan(version: int, beforeBoot: seq<Invocation>, onSuccess: seq<Invocation>, onFailure: seq<Invocation>, onCancel: seq<Invocation>) {
    function In(phase: Phase): seq<Invocation> {
      match phase
      case BeforeBoot => beforeBoot
      case OnSuccess => onSuccess
      case OnFailure => onFailure
      case OnCancel => onCancel
    }

    function All(): seq<Invocation> {
      beforeBoot + onSuccess + onFailure + onCancel
    }
  }

  predicate Identifier(s: string) {
    1 <= |s| <= 128 && Alphanumeric(s[0]) && forall c <- s :: Alphanumeric(c) || c == '_' || c == '.' || c == '-'
  }

  predicate Matches(kind: Kind, value: Value) {
    match kind
    case StringKind => value.Text?
    case BooleanKind => value.Bool?
    case NumberKind => value.Number?
    case IntegerKind => value.Number? && value.number.Floor as real == value.number && -SAFE_INTEGER <= value.number <= SAFE_INTEGER
  }

  // One parameter of an invocation is as its descriptor says.
  predicate ParameterFits(p: Parameter, given: map<string, Value>) {
    if p.name in given then Matches(p.kind, given[p.name]) && (p.options == [] || given[p.name] in p.options) else !p.required
  }

  predicate InvocationFits(registry: Registry, i: Invocation) {
    && i.task in registry && i.parameters.Some?
    && (forall p <- registry[i.task].parameters :: ParameterFits(p, i.parameters.value))
    && (forall name <- i.parameters.value :: exists p <- registry[i.task].parameters :: p.name == name)
    && registry[i.task].accepts(i.parameters.value)
  }

  ghost predicate DistinctIds(invocations: seq<Invocation>) {
    forall i, j | 0 <= i < j < |invocations| :: invocations[i].id != invocations[j].id
  }

  ghost predicate Acceptable(registry: Registry, plan: Plan) {
    && plan.version == 1 && |plan.All()| <= MAX_INVOCATIONS && DistinctIds(plan.All())
    && forall i <- plan.All() :: Identifier(i.id) && InvocationFits(registry, i)
  }

  // The double loop of Validate, phase after phase, with the IDs seen so far.
  method Validate(registry: Registry, plan: Plan) returns (ok: bool)
    ensures ok <==> Acceptable(registry, plan)
  {
    ok := false;
    if plan.version != 1 {
      return;
    }
    var phases := [BeforeBoot, OnSuccess, OnFailure, OnCancel];
    var ids: set<string> := {};
    var count := 0;
    ghost var seen: seq<Invocation> := [];
    for k := 0 to 4
      invariant count == |seen| <= MAX_INVOCATIONS && seen == Before(plan, k)
      invariant Checked(registry, seen, ids)
    {
      var invocations := plan.In(phases[k]);
      for j := 0 to |invocations|
        invariant count == |seen| <= MAX_INVOCATIONS && seen == Before(plan, k) + invocations[..j]
        invariant Checked(registry, seen, ids)
      {
        var invocation := invocations[j];
        count := count + 1;
        PrefixOfAll(plan, k, j);
        NextChecked(registry, seen, ids, invocation);
        if count > MAX_INVOCATIONS || !Identifier(invocation.id) || invocation.id in ids {
          RefusedBy(registry, plan, seen + [invocation]);
          return;
        }
        ids := ids + {invocation.id};
        if !InvocationFits(registry, invocation) {
          RefusedBy(registry, plan, seen + [invocation]);
          return;
        }
        seen := seen + [invocation];
      }
      assert invocations[..|invocations|] == invocations;
    }
    ok := true;
  }

  function Before(plan: Plan, k: nat): seq<Invocation> {
    if k == 0 then [] else if k == 1 then plan.beforeBoot else if k == 2 then plan.beforeBoot + plan.onSuccess
    else if k == 3 then plan.beforeBoot + plan.onSuccess + plan.onFailure else plan.All()
  }

  ghost predicate Checked(registry: Registry, seen: seq<Invocation>, ids: set<string>) {
    && DistinctIds(seen) && (forall i <- seen :: Identifier(i.id) && InvocationFits(registry, i))
    && ids == set i | i in seen :: i.id
  }

  lemma NextChecked(registry: Registry, seen: seq<Invocation>, ids: set<string>, next: Invocation)
    requires Checked(registry, seen, ids)
    ensures DistinctIds(seen + [next]) <==> next.id !in ids
    ensures next.id !in ids && Identifier(next.id) && InvocationFits(registry, next) ==> Checked(registry, seen + [next], ids + {next.id})
  {
    if next.id in ids {
      var i :| i in seen && i.id == next.id;
      var k :| 0 <= k < |seen| && seen[k] == i;
      assert (seen + [next])[k].id == (seen + [next])[|seen|].id;
    } else {
      assert forall k | 0 <= k < |seen| :: seen[k] in seen;
      assert (set i | i in seen + [next] :: i.id) == ids + {next.id};
    }
  }

  lemma PrefixOfAll(plan: Plan, k: nat, j: nat)
    requires k < 4 && j < |plan.In([BeforeBoot, OnSuccess, OnFailure, OnCancel][k])|
    ensures var invocations := plan.In([BeforeBoot, OnSuccess, OnFailure, OnCancel][k]);
      var n := |Before(plan, k)| + j + 1;
      && n <= |plan.All()| && plan.All()[..n] == Before(plan, k) + invocations[..j] + [invocations[j]]
  {
    var invocations := plan.In([BeforeBoot, OnSuccess, OnFailure, OnCancel][k]);
    assert invocations[..j] + [invocations[j]] == invocations[..j + 1];
  }

  lemma RefusedBy(registry: Registry, plan: Plan, prefix: seq<Invocation>)
    requires prefix != [] && |prefix| <= |plan.All()| && prefix == plan.All()[..|prefix|]
    requires |prefix| > MAX_INVOCATIONS || !DistinctIds(prefix) || !Identifier(prefix[|prefix| - 1].id) || !InvocationFits(registry, prefix[|prefix| - 1])
    ensures !Acceptable(registry, plan)
  {
    assert prefix[|prefix| - 1] == plan.All()[|prefix| - 1];
    assert plan.All()[|prefix| - 1] in plan.All();
    if !DistinctIds(prefix) {
      var i, j :| 0 <= i < j < |prefix| && prefix[i].id == prefix[j].id;
      assert plan.All()[i].id == plan.All()[j].id;
    }
  }
}
