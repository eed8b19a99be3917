/**
 The byte budget over whole runs (internal/storagebudget/budget.go, internal/jobs/retention.go,
 internal/jobs/manager.go, internal/artifact/store.go).

 `Committed` is what `StatusLocked` reports as used plus reserved.  A tombstone is written before the
 record it replaces is removed, so it is `Pending` while that record is still there or its reservation
 is still held.  `CommittedWithinLimit` bounds every reachable state by the limit plus what is pending.
 */
module BudgetLedger {
  import opened StorageBudget

  const MAINTENANCE := 4 * 1024 * 1024
  const TOMBSTONE_MARGIN := 4096

  // The files of a job: its record, while `linked`, and its output.  A job is `known` to the running
  // process unless its publish was reported as failed; it is `unfinished` while the record on disk is
  // not terminal.
  datatype Files = Files(record: int, output: int, linked: bool, known: bool, terminal: bool, unfinished: bool) {
    function Size(): int {
      record + output
    }
  }

  // `share` is outputReservation(); `fixed` counts artifacts, staging and files of no job;
  // `tombstones` the prune journal, by job.
  datatype Ledger = Ledger(limit: int, share: int, fixed: int, jobs: map<JobId, Files>, reserved: set<JobId>, tombstones: map<JobId, int>) {
    function Ids(): set<JobId> {
      jobs.Keys + reserved + tombstones.Keys
    }

    function SizeOf(id: JobId): int {
      if id in jobs then jobs[id].Size() else 0
    }

    function Tombstone(id: JobId): int {
      if id in tombstones then tombstones[id] else 0
    }

    // The output of a reserved job is inside its reservation, so it does not count again.
    function Charge(id: JobId): int {
      if id in reserved then share else SizeOf(id)
    }

    // A tombstone whose bytes have not come free: the record it replaces is still there, or its job
    // still has a reservation.
    predicate Pends(id: JobId) {
      id in tombstones && (id in reserved || (id in jobs && jobs[id].linked))
    }

    ghost function Used(): int {
      fixed + Total(map id <- Ids() :: SizeOf(id) + Tombstone(id))
    }

    ghost function Committed(): int {
      fixed + MAINTENANCE + Total(Loads())
    }

    function Loads(): map<JobId, int> {
      map id <- Ids() :: Charge(id) + Tombstone(id)
    }

    ghost function Pending(): int {
      Total(map id <- Ids() :: if Pends(id) then Tombstone(id) else 0)
    }

    ghost predicate Within(need: int) {
      Committed() + need <= limit
    }

    // What a job costs apart from a pending tombstone.
    function Cost(id: JobId): int {
      Charge(id) + if Pends(id) then 0 else Tombstone(id)
    }

    function Costs(): map<JobId, int> {
      map id <- Ids() :: Cost(id)
    }
  }

  datatype Step =
    | Admit(id: JobId, record: int) | FailAdmission(id: JobId, bytes: int, landed: bool)
    | Output(id: JobId, record: int, output: int) | Finish(id: JobId, saved: bool) | Release(id: JobId)
    | Import(bytes: int) | Evict(bytes: int)
    | Entomb(id: JobId, bytes: int) | Unlink(id: JobId) | Free(id: JobId, left: int) | Forget(id: JobId)
    | Restart(found: map<JobId, Files>)

  predicate Done(l: Ledger, id: JobId) {
    id in l.jobs && l.jobs[id].known && l.jobs[id].terminal
  }

  // What a start makes of a record it finds: one with a tombstone is only going to be removed, a
  // finished one is at most cut, an unfinished one is closed with one more event and a new record.
  ghost predicate Reloaded(l: Ledger, id: JobId, f: Files)
    requires id in l.jobs
  {
    var was := l.jobs[id];
    && f.linked && f.known && f.terminal && 0 <= f.record && 0 <= f.output && (f.unfinished ==> was.unfinished)
    && (id in l.tombstones ==> f.record == was.record && f.output == was.output)
    && (!was.unfinished ==> f.Size() <= was.Size())
    && (id in l.reserved ==> f.Size() <= l.share)
  }

  ghost predicate Enabled(l: Ledger, s: Step) {
    match s
    case Admit(id, record) => l.Within(l.share) && 0 <= record <= l.share && id !in l.Ids()
    case FailAdmission(id, bytes, _) => l.Within(l.share) && 0 <= bytes <= l.share && id !in l.Ids()
    case Output(id, record, output) =>
      id in l.jobs && l.jobs[id].known && !l.jobs[id].terminal && 0 <= record && 0 <= output && record + output <= l.share
    case Finish(id, _) => id in l.jobs && l.jobs[id].known && !l.jobs[id].terminal
    case Release(id) => Done(l, id) && id in l.reserved
    case Import(bytes) => 0 <= bytes && l.Within(bytes)
    case Evict(bytes) => 0 <= bytes <= l.fixed
    case Entomb(id, bytes) => Done(l, id) && l.jobs[id].linked && id !in l.tombstones && 0 < bytes && l.Used() + bytes + TOMBSTONE_MARGIN <= l.limit
    case Unlink(id) => Done(l, id) && l.jobs[id].linked
    case Free(id, left) => Done(l, id) && !l.jobs[id].linked && 0 <= left <= l.jobs[id].output
    case Forget(id) => Done(l, id) && !l.jobs[id].linked && l.jobs[id].output == 0
    case Restart(left) =>
      && (forall id :: id in left <==> id in l.jobs && l.jobs[id].linked)
      && forall id <- left :: Reloaded(l, id, left[id])
  }

  // Output whose record was removed belongs to no job that a start would find.
  function Stray(l: Ledger, id: JobId): int {
    if id in l.jobs && !l.jobs[id].linked then l.jobs[id].output else 0
  }

  ghost function Apply(l: Ledger, s: Step): Ledger
    requires Enabled(l, s)
  {
    match s
    case Admit(id, record) => l.(jobs := l.jobs[id := Files(record, 0, true, true, false, true)], reserved := l.reserved + {id})
    case FailAdmission(id, bytes, landed) =>
      if landed then l.(jobs := l.jobs[id := Files(bytes, 0, true, false, false, true)]) else l.(fixed := l.fixed + bytes)
    case Output(id, record, output) => l.(jobs := l.jobs[id := l.jobs[id].(record := record, output := output)])
    case Finish(id, saved) => l.(jobs := l.jobs[id := l.jobs[id].(terminal := true, unfinished := !saved)])
    case Release(id) => l.(reserved := l.reserved - {id})
    case Import(bytes) => l.(fixed := l.fixed + bytes)
    case Evict(bytes) => l.(fixed := l.fixed - bytes)
    case Entomb(id, bytes) => l.(tombstones := l.tombstones[id := bytes])
    case Unlink(id) => l.(jobs := l.jobs[id := l.jobs[id].(linked := false, record := 0)])
    case Free(id, left) => l.(jobs := l.jobs[id := l.jobs[id].(output := left)])
    case Forget(id) => l.(jobs := l.jobs - {id})
    case Restart(left) => l.(jobs := left, reserved := {}, fixed := l.fixed + Total(map id <- l.Ids() :: Stray(l, id)))
  }

  // ----- The invariant -----------------------------------------------------------------------------

  ghost predicate SaneJob(l: Ledger, id: JobId)
    requires id in l.jobs
  {
    var f := l.jobs[id];
    && 0 <= f.record && 0 <= f.output && (!f.linked ==> f.record == 0)
    && (f.known && !f.terminal ==> id in l.reserved && f.linked)
    && (!f.known ==> f.linked && id !in l.reserved)
    && (!f.terminal ==> id !in l.tombstones)
    && (id in l.reserved ==> f.Size() <= l.share)
    && (id in l.tombstones && f.linked ==> l.tombstones[id] <= f.record)
    && (id in l.tombstones && id in l.reserved && !f.linked ==> l.tombstones[id] + f.output <= l.share)
  }

  ghost predicate Sane(l: Ledger) {
    && 0 <= l.share && 0 <= l.fixed
    && (forall id <- l.jobs :: SaneJob(l, id))
    && (forall id <- l.tombstones :: 0 < l.tombstones[id])
    && (forall id <- l.reserved :: id !in l.jobs ==> l.Tombstone(id) <= l.share)
  }

  // Everything but the pending tombstones is within the limit.
  ghost predicate Bounded(l: Ledger) {
    l.fixed + MAINTENANCE + Total(l.Costs()) <= l.limit
  }

  // By how much the records that no reservation covers grow at a start.
  function Growth(l: Ledger, left: map<JobId, Files>, id: JobId): int {
    if id in l.jobs && id in left && l.jobs[id].unfinished && id !in l.reserved then left[id].Size() - l.jobs[id].Size() else 0
  }

  ghost function TotalGrowth(l: Ledger, left: map<JobId, Files>): int {
    Total(map id <- l.Ids() :: Growth(l, left, id))
  }

  // The two conditions that a run must meet: a tombstone is no larger than the record it replaces,
  // and records that grow at a start without a reservation find room.
  ghost predicate Affordable(l: Ledger, s: Step) {
    match s
    case Entomb(id, bytes) => id in l.jobs ==> bytes <= l.jobs[id].record
    case Restart(left) => l.Committed() - l.Pending() + TotalGrowth(l, left) <= l.limit
    case _ => true
  }

  // ----- Sums ----------------------------------------------------------------------------------------

  function At(m: map<JobId, int>, id: JobId): int {
    if id in m then m[id] else 0
  }

  lemma OneChanged(a: map<JobId, int>, b: map<JobId, int>, id: JobId)
    requires forall x :: x != id ==> (x in a <==> x in b) && (x in a ==> a[x] == b[x])
    ensures Total(b) == Total(a) - At(a, id) + At(b, id)
  {
    assert a - {id} == b - {id};
    if id in a { TotalWithout(a, id); } else { assert a - {id} == a; }
    if id in b { TotalWithout(b, id); } else { assert b - {id} == b; }
  }

  lemma {:induction false} TotalMonotone(a: map<JobId, int>, b: map<JobId, int>)
    requires a.Keys == b.Keys && forall id <- a :: a[id] <= b[id]
    ensures Total(a) <= Total(b)
    decreases |a|
  {
    if a != map[] {
      var id :| id in a;
      TotalWithout(a, id);
      TotalWithout(b, id);
      TotalMonotone(a - {id}, b - {id});
    } else {
      assert b == map[];
    }
  }

  lemma {:induction false} TotalSum(a: map<JobId, int>, b: map<JobId, int>, c: map<JobId, int>)
    requires a.Keys == b.Keys == c.Keys && forall id <- a :: c[id] == a[id] + b[id]
    ensures Total(c) == Total(a) + Total(b)
    decreases |a|
  {
    if a != map[] {
      var id :| id in a;
      TotalWithout(a, id);
      TotalWithout(b, id);
      TotalWithout(c, id);
      TotalSum(a - {id}, b - {id}, c - {id});
    } else {
      assert b == map[] && c == map[];
    }
  }

  // Entries that are zero do not count.
  lemma {:induction false} TotalOver(m: map<JobId, int>, ids: set<JobId>)
    requires m.Keys <= ids
    ensures Total(map id <- ids :: At(m, id)) == Total(m)
    decreases |ids|
  {
    var extra := ids - m.Keys;
    if extra == {} {
      assert ids == m.Keys;
      assert (map id <- ids :: At(m, id)) == m;
    } else {
      var id :| id in extra;
      TotalOver(m, ids - {id});
      OneZeroLess(m, ids, id);
    }
  }

  lemma OneZeroLess(m: map<JobId, int>, ids: set<JobId>, id: JobId)
    requires id in ids && id !in m
    ensures Total(map x <- ids :: At(m, x)) == Total(map x <- ids - {id} :: At(m, x))
  {
    var wide := map x <- ids :: At(m, x);
    TotalWithout(wide, id);
    assert wide - {id} == map x <- ids - {id} :: At(m, x);
  }

  lemma {:induction false} TotalOfZeros(m: map<JobId, int>)
    requires forall id <- m :: m[id] == 0
    ensures Total(m) == 0
    decreases |m|
  {
    if m != map[] {
      var id :| id in m;
      TotalWithout(m, id);
      TotalOfZeros(m - {id});
    }
  }

  lemma CommittedIsCostAndPending(l: Ledger)
    ensures l.Committed() == l.fixed + MAINTENANCE + Total(l.Costs()) + l.Pending()
  {
    TotalSum(l.Costs(), map id <- l.Ids() :: if l.Pends(id) then l.Tombstone(id) else 0, l.Loads());
  }

  lemma PendingIsPositive(l: Ledger)
    requires Sane(l)
    ensures 0 <= l.Pending()
    ensures (forall id <- l.Ids() :: !l.Pends(id)) ==> l.Pending() == 0
  {
    var pending := map id <- l.Ids() :: if l.Pends(id) then l.Tombstone(id) else 0;
    var zeros := map id <- l.Ids() :: 0;
    TotalOfZeros(zeros);
    TotalMonotone(zeros, pending);
    if forall id <- l.Ids() :: !l.Pends(id) {
      TotalOfZeros(pending);
    }
  }

  // ----- Every step keeps it ---------------------------------------------------------------------------

  // What the steps that touch one job do to the costs.
  lemma CostsChange(l: Ledger, l': Ledger, id: JobId)
    requires Elsewhere(l, l', id)
    ensures Total(l'.Costs()) == Total(l.Costs()) - At(l.Costs(), id) + At(l'.Costs(), id)
  {
    hide Elsewhere;
    forall x | x != id ensures (x in l.Costs() <==> x in l'.Costs()) && (x in l.Costs() ==> l.Costs()[x] == l'.Costs()[x]) {
      SameJob(l, l', id, x);
    }
    hide Ledger.Costs;
    OneChanged(l.Costs(), l'.Costs(), id);
  }

  lemma SameJob(l: Ledger, l': Ledger, id: JobId, x: JobId)
    requires x != id && Elsewhere(l, l', id)
    ensures x in l.Ids() <==> x in l'.Ids()
    ensures l.Cost(x) == l'.Cost(x)
  {
    SameParts(l, l', id, x);
    assert l'.share == l.share;
    hide Elsewhere;
  }

  lemma CostsAt(l: Ledger, id: JobId)
    requires Sane(l)
    ensures At(l.Costs(), id) == if id in l.Ids() then l.Cost(id) else 0
    ensures id !in l.Ids() ==> l.Cost(id) == 0
  {
  }

  // The step changes at most one job.
  ghost predicate Elsewhere(l: Ledger, l': Ledger, id: JobId) {
    && l'.share == l.share && l'.limit == l.limit
    && l'.jobs - {id} == l.jobs - {id} && l'.reserved - {id} == l.reserved - {id} && l'.tombstones - {id} == l.tombstones - {id}
  }

  ghost predicate SaneAt(l: Ledger, id: JobId) {
    && (id in l.jobs ==> SaneJob(l, id))
    && (id in l.tombstones ==> 0 < l.tombstones[id])
    && (id in l.reserved && id !in l.jobs ==> l.Tombstone(id) <= l.share)
  }

  lemma SaneIsEverywhere(l: Ledger)
    ensures Sane(l) <==> 0 <= l.share && 0 <= l.fixed && forall id :: SaneAt(l, id)
  {
    hide SaneJob;
    if Sane(l) {
      assert forall id :: SaneAt(l, id);
    }
    if 0 <= l.share && 0 <= l.fixed && forall id :: SaneAt(l, id) {
      forall id <- l.jobs ensures SaneJob(l, id) { assert SaneAt(l, id); }
      forall id <- l.tombstones ensures 0 < l.tombstones[id] { assert SaneAt(l, id); }
      forall id <- l.reserved ensures id !in l.jobs ==> l.Tombstone(id) <= l.share { assert SaneAt(l, id); }
    }
  }

  lemma SameSaneAt(l: Ledger, l': Ledger, id: JobId, x: JobId)
    requires Elsewhere(l, l', id) && x != id
    ensures SaneAt(l, x) <==> SaneAt(l', x)
  {
    SameJob(l, l', id, x);
    SameParts(l, l', id, x);
  }

  lemma SameParts(l: Ledger, l': Ledger, id: JobId, x: JobId)
    requires Elsewhere(l, l', id) && x != id
    ensures (x in l.jobs <==> x in l'.jobs) && (x in l.jobs ==> l.jobs[x] == l'.jobs[x])
    ensures x in l.reserved <==> x in l'.reserved
    ensures (x in l.tombstones <==> x in l'.tombstones) && (x in l.tombstones ==> l.tombstones[x] == l'.tombstones[x])
  {
    assert x in l.jobs <==> x in l.jobs - {id};
    assert x in l'.jobs <==> x in l'.jobs - {id};
    assert x in l.jobs ==> l.jobs[x] == (l.jobs - {id})[x];
    assert x in l'.jobs ==> l'.jobs[x] == (l'.jobs - {id})[x];
    assert x in l.reserved <==> x in l.reserved - {id};
    assert x in l'.reserved <==> x in l'.reserved - {id};
    assert x in l.tombstones <==> x in l.tombstones - {id};
    assert x in l'.tombstones <==> x in l'.tombstones - {id};
    assert x in l.tombstones ==> l.tombstones[x] == (l.tombstones - {id})[x];
    assert x in l'.tombstones ==> l'.tombstones[x] == (l'.tombstones - {id})[x];
  }

  lemma KeptBy(l: Ledger, l': Ledger, id: JobId, extra: int)
    requires Sane(l) && Elsewhere(l, l', id) && SaneAt(l', id) && 0 <= l'.fixed
    requires l'.fixed + At(l'.Costs(), id) <= l.fixed + At(l.Costs(), id) + extra
    requires l.fixed + MAINTENANCE + Total(l.Costs()) + extra <= l.limit
    ensures Sane(l') && Bounded(l')
  {
    hide SaneAt, Ledger.Costs;
    CostsChange(l, l', id);
    SaneIsEverywhere(l);
    SaneIsEverywhere(l');
    forall x ensures SaneAt(l', x) {
      if x != id { SameSaneAt(l, l', id, x); }
    }
  }

  lemma AdmissionStep(l: Ledger, s: Step)
    requires Sane(l) && Enabled(l, s) && (s.Admit? || s.FailAdmission? || s.Output? || s.Finish?)
    ensures var l' := Apply(l, s); var extra := if s.Admit? || s.FailAdmission? then l.share else 0;
      && Elsewhere(l, l', s.id) && SaneAt(l', s.id) && 0 <= l'.fixed
      && l'.fixed + At(l'.Costs(), s.id) <= l.fixed + At(l.Costs(), s.id) + extra
  {
    var l', id := Apply(l, s), s.id;
    hide Ledger.Within, Total;
    assert id in l.jobs ==> SaneJob(l, id);
    CostsAt(l, id);
    assert At(l'.Costs(), id) == if id in l'.Ids() then l'.Cost(id) else 0;
    assert l'.jobs - {id} == l.jobs - {id} && l'.reserved - {id} == l.reserved - {id};
  }

  // Admissions and the writing of output.
  lemma AdmissionKeeps(l: Ledger, s: Step)
    requires Sane(l) && Bounded(l) && Enabled(l, s) && (s.Admit? || s.FailAdmission? || s.Output? || s.Finish?)
    ensures Sane(Apply(l, s)) && Bounded(Apply(l, s))
  {
    var extra := if s.Admit? || s.FailAdmission? then l.share else 0;
    assert extra == l.share ==> l.Within(l.share) || extra == 0;
    hide Sane, Apply, Ledger.Costs, Ledger.Ids, SaneAt, Elsewhere;
    CommittedIsCostAndPending(l);
    PendingIsPositive(l);
    AdmissionStep(l, s);
    KeptBy(l, Apply(l, s), s.id, extra);
  }

  lemma StorageKeeps(l: Ledger, s: Step)
    requires Sane(l) && Bounded(l) && Enabled(l, s) && (s.Import? || s.Evict?)
    ensures Sane(Apply(l, s)) && Bounded(Apply(l, s))
  {
    CommittedIsCostAndPending(l);
    PendingIsPositive(l);
    var l' := Apply(l, s);
    assert 0 <= l'.fixed && l' == l.(fixed := l'.fixed);
    assert s.Import? ==> l.Within(s.bytes);
    hide Sane, Apply, Enabled, Total, Ledger.Committed, Ledger.Pending;
    OtherFixed(l, l'.fixed);
    hide Ledger.Costs;
  }

  lemma OtherFixed(l: Ledger, fixed: int)
    requires Sane(l) && 0 <= fixed
    ensures Sane(l.(fixed := fixed)) && l.(fixed := fixed).Costs() == l.Costs()
  {
    var l' := l.(fixed := fixed);
    assert forall id <- l.jobs :: SaneJob(l, id) ==> SaneJob(l', id);
    assert l'.Ids() == l.Ids();
    assert forall id :: l'.Cost(id) == l.Cost(id);
    hide SaneJob;
  }

  lemma PruneStep(l: Ledger, s: Step)
    requires Sane(l) && Enabled(l, s) && Affordable(l, s) && (s.Release? || s.Entomb? || s.Unlink? || s.Free? || s.Forget?)
    ensures var l' := Apply(l, s);
      && Elsewhere(l, l', s.id) && SaneAt(l', s.id) && l'.fixed == l.fixed
      && At(l'.Costs(), s.id) <= At(l.Costs(), s.id)
  {
    var l', id := Apply(l, s), s.id;
    hide Ledger.Within, Total, Ledger.Used;
    assert SaneJob(l, id);
    CostsAt(l, id);
    assert At(l'.Costs(), id) == if id in l'.Ids() then l'.Cost(id) else 0;
    assert l'.jobs - {id} == l.jobs - {id} && l'.reserved - {id} == l.reserved - {id} && l'.tombstones - {id} == l.tombstones - {id};
  }

  lemma PruneKeeps(l: Ledger, s: Step)
    requires Sane(l) && Bounded(l) && Enabled(l, s) && Affordable(l, s) && (s.Release? || s.Entomb? || s.Unlink? || s.Free? || s.Forget?)
    ensures Sane(Apply(l, s)) && Bounded(Apply(l, s))
  {
    assert 0 <= l.fixed;
    hide Sane, Apply, Ledger.Costs, Ledger.Ids, SaneAt, Elsewhere, Enabled, Affordable;
    PruneStep(l, s);
    KeptBy(l, Apply(l, s), s.id, 0);
  }

  // What a start leaves of one job, its stray output and its growth, against what it cost.
  lemma RestartCost(l: Ledger, left: map<JobId, Files>, id: JobId)
    requires Sane(l) && Enabled(l, Restart(left)) && id in l.Ids()
    ensures var l' := Apply(l, Restart(left));
      && At(l'.Costs(), id) + Stray(l, id) <= l.Cost(id) + Growth(l, left, id)
      && (l.reserved == {} && Untouched(l, left) ==> At(l'.Costs(), id) + Stray(l, id) == l.Cost(id) + Growth(l, left, id))
  {
    var l' := Apply(l, Restart(left));
    hide Total;
    assert id in l.jobs ==> SaneJob(l, id);
    assert id in left ==> Reloaded(l, id, left[id]);
    assert At(l'.Costs(), id) == if id in l'.Ids() then l'.Cost(id) else 0;
  }

  // Finished records that a start leaves as they are.
  ghost predicate Untouched(l: Ledger, left: map<JobId, Files>) {
    forall id <- left :: id in l.jobs && !l.jobs[id].unfinished ==> left[id].Size() == l.jobs[id].Size()
  }

  lemma RestartCosts(l: Ledger, left: map<JobId, Files>)
    requires Sane(l) && Enabled(l, Restart(left))
    ensures var l' := Apply(l, Restart(left));
      && l'.fixed + Total(l'.Costs()) <= l.fixed + Total(l.Costs()) + TotalGrowth(l, left)
      && (l.reserved == {} && Untouched(l, left) ==> l'.fixed + Total(l'.Costs()) == l.fixed + Total(l.Costs()) + TotalGrowth(l, left))
  {
    var l' := Apply(l, Restart(left));
    assert l'.fixed == l.fixed + Total(map id <- l.Ids() :: Stray(l, id));
    assert l'.Ids() <= l.Ids() && l'.Costs().Keys <= l.Ids();
    var costs, stray := map id <- l.Ids() :: At(l'.Costs(), id), map id <- l.Ids() :: Stray(l, id);
    var growth := map id <- l.Ids() :: Growth(l, left, id);
    var after, before := map id <- l.Ids() :: At(l'.Costs(), id) + Stray(l, id), map id <- l.Ids() :: l.Cost(id) + Growth(l, left, id);
    TotalOver(l'.Costs(), l.Ids());
    TotalSum(costs, stray, after);
    TotalSum(l.Costs(), growth, before);
    assert Total(after) == Total(l'.Costs()) + Total(stray) && Total(before) == Total(l.Costs()) + TotalGrowth(l, left);
    RestartCompares(l, left, after, before);
  }

  lemma RestartCompares(l: Ledger, left: map<JobId, Files>, after: map<JobId, int>, before: map<JobId, int>)
    requires Sane(l) && Enabled(l, Restart(left))
    requires after == map id <- l.Ids() :: At(Apply(l, Restart(left)).Costs(), id) + Stray(l, id)
    requires before == map id <- l.Ids() :: l.Cost(id) + Growth(l, left, id)
    ensures Total(after) <= Total(before)
    ensures l.reserved == {} && Untouched(l, left) ==> Total(after) == Total(before)
  {
    hide Sane, Enabled, Apply, Ledger.Cost, Ledger.Costs, Growth, Stray, At, Total, Ledger.Ids;
    forall id | id in l.Ids()
      ensures after[id] <= before[id] && (l.reserved == {} && Untouched(l, left) ==> after[id] == before[id])
    {
      RestartCost(l, left, id);
    }
    TotalMonotone(after, before);
    if l.reserved == {} && Untouched(l, left) {
      assert after == before;
    }
  }

  lemma RestartIsSane(l: Ledger, left: map<JobId, Files>)
    requires Sane(l) && Enabled(l, Restart(left))
    ensures Sane(Apply(l, Restart(left)))
  {
    var l' := Apply(l, Restart(left));
    var stray, zeros := map id <- l.Ids() :: Stray(l, id), map id <- l.Ids() :: 0;
    TotalOfZeros(zeros);
    forall id | id in l.Ids() ensures zeros[id] <= stray[id] {
      assert id in l.jobs ==> SaneJob(l, id);
    }
    TotalMonotone(zeros, stray);
    hide Total;
    forall id | id in l'.jobs ensures SaneJob(l', id) {
      assert SaneJob(l, id) && Reloaded(l, id, left[id]);
    }
  }

  lemma RestartKeeps(l: Ledger, left: map<JobId, Files>)
    requires Sane(l) && Bounded(l) && Enabled(l, Restart(left)) && Affordable(l, Restart(left))
    ensures Sane(Apply(l, Restart(left))) && Bounded(Apply(l, Restart(left)))
  {
    hide Sane, Enabled, TotalGrowth, Ledger.Costs, Ledger.Pending, Ledger.Committed, Ledger.Ids;
    RestartCosts(l, left);
    RestartIsSane(l, left);
    CommittedIsCostAndPending(l);
  }

  lemma StepKeeps(l: Ledger, s: Step)
    requires Sane(l) && Bounded(l) && Enabled(l, s) && Affordable(l, s)
    ensures Sane(Apply(l, s)) && Bounded(Apply(l, s))
  {
    hide Sane, Bounded, Enabled, Apply, Affordable;
    match s
    case Restart(left) => RestartKeeps(l, left);
    case _ =>
      if s.Release? || s.Entomb? || s.Unlink? || s.Free? || s.Forget? {
        PruneKeeps(l, s);
      } else if s.Import? || s.Evict? {
        StorageKeeps(l, s);
      } else {
        AdmissionKeeps(l, s);
      }
  }

  // ----- Runs ---------------------------------------------------------------------------------------------

  ghost predicate Legal(l: Ledger, steps: seq<Step>)
    decreases |steps|
  {
    steps != [] ==> Enabled(l, steps[0]) && Legal(Apply(l, steps[0]), steps[1..])
  }

  ghost function Run(l: Ledger, steps: seq<Step>): Ledger
    requires Legal(l, steps)
    decreases |steps|
  {
    if steps == [] then l else Run(Apply(l, steps[0]), steps[1..])
  }

  ghost predicate AllAffordable(l: Ledger, steps: seq<Step>)
    requires Legal(l, steps)
    decreases |steps|
  {
    steps != [] ==> Affordable(l, steps[0]) && AllAffordable(Apply(l, steps[0]), steps[1..])
  }

  lemma {:induction false} RunKeeps(l: Ledger, steps: seq<Step>)
    requires Sane(l) && Bounded(l) && Legal(l, steps) && AllAffordable(l, steps)
    ensures Sane(Run(l, steps)) && Bounded(Run(l, steps))
    decreases |steps|
  {
    if steps != [] {
      hide Sane, Bounded, Enabled, Apply, Affordable;
      StepKeeps(l, steps[0]);
      RunKeeps(Apply(l, steps[0]), steps[1..]);
    }
  }

  // A store just opened and within its limit: no reservation, every record finished, no tombstone
  // beside its record.
  ghost predicate Start(l: Ledger) {
    && 0 <= l.share && 0 <= l.fixed && l.reserved == {} && l.Within(0)
    && (forall id <- l.jobs :: var f := l.jobs[id]; 0 <= f.record && 0 <= f.output && f.linked && f.known && f.terminal && id !in l.tombstones)
    && (forall id <- l.tombstones :: 0 < l.tombstones[id])
  }

  lemma StartIsBounded(l: Ledger)
    requires Start(l)
    ensures Sane(l) && Bounded(l)
  {
    CommittedIsCostAndPending(l);
    assert forall id <- l.jobs :: SaneJob(l, id);
    hide SaneJob;
    PendingIsPositive(l);
  }

  // Over every affordable run of admissions, imports, ungated output, completions, cleanups cut off
  // anywhere, failed publishes and restarts: used plus reserved stays within the limit but for the
  // tombstones whose record is still there or whose reservation is still held, and every job that
  // may still write holds its full reservation.  Where there is no such tombstone, it is within the limit.
  lemma CommittedWithinLimit(l: Ledger, steps: seq<Step>)
    requires Start(l) && Legal(l, steps) && AllAffordable(l, steps)
    ensures var l' := Run(l, steps);
      && l'.Committed() <= l'.limit + l'.Pending()
      && ((forall id <- l'.tombstones :: id !in l'.reserved && (id in l'.jobs ==> !l'.jobs[id].linked)) ==> l'.Within(0))
      && (forall id <- l'.jobs :: l'.jobs[id].known && !l'.jobs[id].terminal ==> id in l'.reserved && l'.jobs[id].Size() <= l'.share)
      && l'.Used() + MAINTENANCE <= l'.Committed()
  {
    StartIsBounded(l);
    RunKeeps(l, steps);
    var l' := Run(l, steps);
    hide Run, Legal, AllAffordable, Start;
    CommittedIsCostAndPending(l');
    PendingIsPositive(l');
    UsedIsCommitted(l');
    assert forall id <- l'.jobs :: SaneJob(l', id);
  }

  lemma UsedIsCommitted(l: Ledger)
    requires Sane(l)
    ensures l.Used() + MAINTENANCE <= l.Committed()
  {
    forall id | id in l.Ids() ensures l.SizeOf(id) <= l.Charge(id) {
      assert id in l.jobs ==> SaneJob(l, id);
    }
    TotalMonotone(map id <- l.Ids() :: l.SizeOf(id) + l.Tombstone(id), l.Loads());
  }

  // The reserve absorbs what is pending: while it fits, the disk holds no more than the limit.
  lemma DiskWithinLimit(l: Ledger, steps: seq<Step>)
    requires Start(l) && Legal(l, steps) && AllAffordable(l, steps)
    ensures Run(l, steps).Used() <= Run(l, steps).limit + Run(l, steps).Pending() - MAINTENANCE
    ensures Run(l, steps).Pending() <= MAINTENANCE ==> Run(l, steps).Used() <= Run(l, steps).limit
  {
    CommittedWithinLimit(l, steps);
  }

  // The same from any later moment at which the store is found within its limit, whatever happened
  // before: after an overrun it is enough that a cleanup gets it back once.
  lemma CommittedFromThere(l: Ledger, steps: seq<Step>)
    requires Sane(l) && l.Within(0) && Legal(l, steps) && AllAffordable(l, steps)
    ensures Run(l, steps).Committed() <= Run(l, steps).limit + Run(l, steps).Pending()
  {
    CommittedIsCostAndPending(l);
    PendingIsPositive(l);
    RunKeeps(l, steps);
    CommittedIsCostAndPending(Run(l, steps));
  }

  // ----- Where it fails --------------------------------------------------------------------------------

  lemma CommittedChange(l: Ledger, l': Ledger, id: JobId)
    requires Elsewhere(l, l', id)
    ensures l'.Committed() == l.Committed() + l'.fixed - l.fixed - At(l.Loads(), id) + At(l'.Loads(), id)
  {
    hide Elsewhere;
    forall x | x != id ensures (x in l.Loads() <==> x in l'.Loads()) && (x in l.Loads() ==> l.Loads()[x] == l'.Loads()[x]) {
      SameLoad(l, l', id, x);
    }
    hide Ledger.Loads;
    OneChanged(l.Loads(), l'.Loads(), id);
  }

  lemma SameLoad(l: Ledger, l': Ledger, id: JobId, x: JobId)
    requires x != id && Elsewhere(l, l', id)
    ensures x in l.Ids() <==> x in l'.Ids()
    ensures l.Charge(x) + l.Tombstone(x) == l'.Charge(x) + l'.Tombstone(x)
  {
    SameParts(l, l', id, x);
    assert l'.share == l.share;
    hide Elsewhere;
  }

  lemma EntombStage(l: Ledger, id: JobId, bytes: int)
    requires Enabled(l, Entomb(id, bytes))
    ensures var l' := Apply(l, Entomb(id, bytes));
      && l'.Committed() == l.Committed() + bytes
      && l'.jobs == l.jobs && l'.reserved == l.reserved && l'.limit == l.limit && Enabled(l', Unlink(id))
  {
    var l' := Apply(l, Entomb(id, bytes));
    hide Ledger.Used, Ledger.Committed;
    StageChange(l, l', id);
  }

  lemma UnlinkStage(l: Ledger, id: JobId)
    requires Enabled(l, Unlink(id)) && 0 <= l.jobs[id].output
    ensures var l' := Apply(l, Unlink(id)); var f := l.jobs[id];
      && l'.Committed() == l.Committed() - (if id in l.reserved then 0 else f.record)
      && id in l'.jobs && l'.jobs[id].output == f.output && l'.jobs[id].record == 0 && l'.reserved == l.reserved && l'.limit == l.limit && Enabled(l', Free(id, 0))
  {
    var l' := Apply(l, Unlink(id));
    hide Ledger.Used, Ledger.Committed;
    StageChange(l, l', id);
  }

  lemma FreeStage(l: Ledger, id: JobId)
    requires Enabled(l, Free(id, 0)) && l.jobs[id].record == 0
    ensures var l' := Apply(l, Free(id, 0));
      && l'.Committed() == l.Committed() - (if id in l.reserved then 0 else l.jobs[id].output)
      && id in l'.jobs && l'.jobs[id].Size() == 0 && l'.reserved == l.reserved && l'.limit == l.limit && Enabled(l', Forget(id))
  {
    var l' := Apply(l, Free(id, 0));
    hide Ledger.Used, Ledger.Committed;
    StageChange(l, l', id);
  }

  lemma ForgetStage(l: Ledger, id: JobId)
    requires Enabled(l, Forget(id)) && l.jobs[id].Size() == 0
    ensures var l' := Apply(l, Forget(id)); l'.Committed() == l.Committed() && l'.reserved == l.reserved && id !in l'.jobs && l'.limit == l.limit
  {
    var l' := Apply(l, Forget(id));
    hide Ledger.Used, Ledger.Committed;
    StageChange(l, l', id);
  }

  // A prune in its four stages: the tombstone, the record, the output, the entry.
  lemma PruneStages(l: Ledger, id: JobId, tombstone: int)
    requires Sane(l) && Enabled(l, Entomb(id, tombstone))
    ensures id in l.jobs
    ensures var f := l.jobs[id]; var l1 := Apply(l, Entomb(id, tombstone));
      && Enabled(l1, Unlink(id)) && var l2 := Apply(l1, Unlink(id));
      && Enabled(l2, Free(id, 0)) && var l3 := Apply(l2, Free(id, 0));
      && Enabled(l3, Forget(id)) && var l4 := Apply(l3, Forget(id));
      && l1.Committed() == l.Committed() + tombstone
      && l2.Committed() == l1.Committed() - (if id in l.reserved then 0 else f.record)
      && l4.Committed() == l2.Committed() - (if id in l.reserved then 0 else f.output)
      && l4.reserved == l.reserved && id !in l4.jobs
      && l1.limit == l2.limit == l4.limit == l.limit
  {
    assert id in l.jobs && 0 <= l.jobs[id].output by { assert Done(l, id) && SaneJob(l, id); }
    hide Sane, Enabled, Apply, Ledger.Committed;
    EntombStage(l, id, tombstone);
    var l1 := Apply(l, Entomb(id, tombstone));
    UnlinkStage(l1, id);
    var l2 := Apply(l1, Unlink(id));
    FreeStage(l2, id);
    ForgetStage(Apply(l2, Free(id, 0)), id);
  }

  lemma StageChange(l: Ledger, l': Ledger, id: JobId)
    requires Elsewhere(l, l', id) && l'.fixed == l.fixed && id in l.Ids() && (id !in l'.Ids() ==> l'.Charge(id) == 0)
    ensures l'.Committed() == l.Committed() - l.Charge(id) - l.Tombstone(id) + l'.Charge(id) + l'.Tombstone(id)
  {
    CommittedChange(l, l', id);
    hide Elsewhere, Ledger.Committed;
  }

  // On a full budget, a prune that is cut off after its tombstone is over the limit; one that got past
  // the record is within it if and only if the reservation was released and the tombstone is no larger
  // than the record; a complete one, if and only if it was released and the tombstone is no larger than
  // all the files.
  lemma PruneExactly(l: Ledger, id: JobId, tombstone: int)
    requires Sane(l) && Enabled(l, Entomb(id, tombstone)) && l.Committed() == l.limit
    ensures id in l.jobs
    ensures var f := l.jobs[id]; var l1 := Apply(l, Entomb(id, tombstone));
      && !l1.Within(0)
      && Enabled(l1, Unlink(id)) && var l2 := Apply(l1, Unlink(id));
      && (l2.Within(0) <==> id !in l.reserved && tombstone <= f.record)
      && Legal(l2, [Free(id, 0), Forget(id)])
      && (Run(l2, [Free(id, 0), Forget(id)]).Within(0) <==> id !in l.reserved && tombstone <= f.Size())
  {
    assert 0 < tombstone;
    hide Enabled, Apply, Ledger.Committed, Sane;
    PruneStages(l, id, tombstone);
    var l1 := Apply(l, Entomb(id, tombstone));
    RunTwo(Apply(l1, Unlink(id)), Free(id, 0), Forget(id));
  }

  lemma RunTwo(l: Ledger, a: Step, b: Step)
    requires Enabled(l, a) && Enabled(Apply(l, a), b)
    ensures Legal(l, [a, b]) && Run(l, [a, b]) == Apply(Apply(l, a), b)
  {
    hide Enabled, Apply;
    assert [a, b][1..] == [b] && [b][1..] == [];
    RunNext(Apply(l, a), b, []);
    assert [b] + [] == [b];
  }

  lemma RunNext(l: Ledger, s: Step, rest: seq<Step>)
    requires Enabled(l, s) && Legal(Apply(l, s), rest)
    ensures Legal(l, [s] + rest) && Run(l, [s] + rest) == Run(Apply(l, s), rest)
  {
    hide Enabled, Apply;
    assert ([s] + rest)[1..] == rest;
  }

  // The reservation of a job pruned before its release is not released before the next start:
  // Release needs the job, and the job does not come back.
  lemma {:induction false} LeakedReservationStays(l: Ledger, id: JobId, steps: seq<Step>)
    requires Legal(l, steps) && id in l.reserved && id !in l.jobs
    requires forall s <- steps :: !s.Restart?
    ensures id in Run(l, steps).reserved && id !in Run(l, steps).jobs
    decreases |steps|
  {
    if steps != [] {
      assert steps[0] in steps;
      LeakStep(l, id, steps[0]);
      hide Enabled, Apply;
      LeakedReservationStays(Apply(l, steps[0]), id, steps[1..]);
    }
  }

  lemma LeakStep(l: Ledger, id: JobId, s: Step)
    requires Enabled(l, s) && id in l.reserved && id !in l.jobs && !s.Restart?
    ensures id in Apply(l, s).reserved && id !in Apply(l, s).jobs
  {
    hide Ledger.Committed, Ledger.Used;
  }

  // A start keeps the bound, when nothing was reserved and finished records are left alone, if and only
  // if the growth of the unfinished ones finds room.
  lemma RestartExactly(l: Ledger, left: map<JobId, Files>)
    requires Sane(l) && Enabled(l, Restart(left)) && l.reserved == {} && Untouched(l, left)
    ensures Bounded(Apply(l, Restart(left))) <==> l.Committed() - l.Pending() + TotalGrowth(l, left) <= l.limit
    ensures (forall id <- l.tombstones :: id !in l.jobs) ==>
      (Apply(l, Restart(left)).Within(0) <==> l.Committed() + TotalGrowth(l, left) <= l.limit)
  {
    RestartCosts(l, left);
    CommittedIsCostAndPending(l);
    var l' := Apply(l, Restart(left));
    CommittedIsCostAndPending(l');
    if forall id <- l.tombstones :: id !in l.jobs {
      RestartIsSane(l, left);
      PendingIsPositive(l);
      PendingIsPositive(l');
    }
  }

  // One job admitted on a store with room for just it ends and is pruned before its reservation is
  // released: the store is over its limit.
  lemma OverrunIsReachable()
    ensures exists l: Ledger, steps: seq<Step> :: Start(l) && Legal(l, steps) && !Run(l, steps).Within(0)
  {
    var share := 5 * 1024 * 1024;
    var l := EmptyLedger(share);
    hide Enabled, Apply, Ledger.Within, Ledger.Committed, Sane, Start, Elsewhere;
    EmptyStart(share);
    AdmitFinish(share, true);
    AdmitFinishSane(share, true);
    var l1 := Apply(l, Admit("a", 400));
    var l2 := Apply(l1, Finish("a", true));
    MayEntomb(share);
    PruneExactly(l2, "a", 130);
    var s1, s2, s3 := Entomb("a", 130), Unlink("a"), [Free("a", 0), Forget("a")];
    RunNext(Apply(l2, s1), s2, s3);
    RunNext(l2, s1, [s2] + s3);
    RunNext(l1, Finish("a", true), [s1] + ([s2] + s3));
    RunNext(l, Admit("a", 400), [Finish("a", true)] + ([s1] + ([s2] + s3)));
  }

  lemma MayEntomb(share: int)
    requires 400 + 130 + TOMBSTONE_MARGIN <= MAINTENANCE + share
    ensures Enabled(Ledger(MAINTENANCE + share, share, 0, map["a" := Files(400, 0, true, true, true, false)], {"a"}, map[]), Entomb("a", 130))
  {
    UsedByOne(Ledger(MAINTENANCE + share, share, 0, map["a" := Files(400, 0, true, true, true, false)], {"a"}, map[]), "a");
  }

  function EmptyLedger(share: int): Ledger {
    Ledger(MAINTENANCE + share, share, 0, map[], {}, map[])
  }

  lemma EmptyStart(share: int)
    requires 0 <= share
    ensures Start(EmptyLedger(share)) && EmptyLedger(share).Committed() == MAINTENANCE
  {
    assert EmptyLedger(share).Loads() == map[];
  }

  lemma AdmitFinish(share: int, saved: bool)
    requires 400 <= share
    ensures var l := EmptyLedger(share);
      && Enabled(l, Admit("a", 400)) && var l1 := Apply(l, Admit("a", 400));
      && Enabled(l1, Finish("a", saved)) && var l2 := Apply(l1, Finish("a", saved));
      l2 == Ledger(MAINTENANCE + share, share, 0, map["a" := Files(400, 0, true, true, true, !saved)], {"a"}, map[]) && l2.Committed() == l2.limit
  {
    EmptyStart(share);
    var l := EmptyLedger(share);
    var l1 := Apply(l, Admit("a", 400));
    var l2 := Apply(l1, Finish("a", saved));
    CommittedChange(l, l1, "a");
    CommittedChange(l1, l2, "a");
  }

  lemma AdmitFinishSane(share: int, saved: bool)
    requires 400 <= share
    ensures Sane(Ledger(MAINTENANCE + share, share, 0, map["a" := Files(400, 0, true, true, true, !saved)], {"a"}, map[]))
  {
  }

  lemma UsedByOne(l: Ledger, id: JobId)
    requires l.Ids() == {id} && l.fixed == 0 && l.tombstones == map[]
    ensures l.Used() == l.SizeOf(id)
  {
    var sizes := map x <- l.Ids() :: l.SizeOf(x) + l.Tombstone(x);
    assert sizes == map[][id := l.SizeOf(id)];
    TotalUpdated(map[], id, l.SizeOf(id));
  }

  // The last write of a job's record fails, its reservation is released, and imports fill the store;
  // the next start closes the record, which grows, and the store is over its limit.
  lemma RecoveryOverrunIsReachable()
    ensures exists l: Ledger, steps: seq<Step> ::
      Start(l) && Legal(l, steps) && !Run(l, steps).Within(0) && forall s <- steps :: !s.Entomb?
  {
    var share := 5 * 1024 * 1024;
    var l := EmptyLedger(share);
    var grown := map["a" := Files(500, 0, true, true, true, false)];
    var s0, s1, s2, s3, s4 := Admit("a", 400), Finish("a", false), Release("a"), Import(share - 400), Restart(grown);
    hide Enabled, Apply, Ledger.Within, Ledger.Committed, Sane, Start, TotalGrowth, Elsewhere;
    EmptyStart(share);
    AdmitFinish(share, false);
    var l2 := Apply(Apply(l, s0), s1);
    ReleaseFill(share);
    var l4 := Apply(Apply(l2, s2), s3);
    GrowsOnFullStore(share);
    var steps4 := [s4] + [];
    RunNext(l4, s4, []);
    RunNext(Apply(l2, s2), s3, steps4);
    RunNext(l2, s2, [s3] + steps4);
    RunNext(Apply(l, s0), s1, [s2] + ([s3] + steps4));
    RunNext(l, s0, [s1] + ([s2] + ([s3] + steps4)));
    assert Run(l4, steps4) == Apply(l4, s4);
    var steps := [s0] + ([s1] + ([s2] + ([s3] + steps4)));
    assert steps == [s0, s1, s2, s3, s4];
  }

  lemma ReleaseFill(share: int)
    requires 400 <= share
    ensures var l2 := Ledger(MAINTENANCE + share, share, 0, map["a" := Files(400, 0, true, true, true, true)], {"a"}, map[]);
      && l2.Committed() == l2.limit ==>
        && Enabled(l2, Release("a")) && var l3 := Apply(l2, Release("a"));
        && Enabled(l3, Import(share - 400)) && Apply(l3, Import(share - 400)) == FullStore(share) && FullStore(share).Committed() == FullStore(share).limit
  {
    var l2 := Ledger(MAINTENANCE + share, share, 0, map["a" := Files(400, 0, true, true, true, true)], {"a"}, map[]);
    var l3 := Apply(l2, Release("a"));
    CommittedChange(l2, l3, "a");
    CommittedChange(l3, FullStore(share), "a");
  }

  function FullStore(share: int): Ledger {
    Ledger(MAINTENANCE + share, share, share - 400, map["a" := Files(400, 0, true, true, true, true)], {}, map[])
  }

  lemma GrowsOnFullStore(share: int)
    requires 500 <= share && FullStore(share).Committed() == FullStore(share).limit
    ensures var grown := map["a" := Files(500, 0, true, true, true, false)];
      Enabled(FullStore(share), Restart(grown)) && !Apply(FullStore(share), Restart(grown)).Within(0)
  {
    var l, grown := FullStore(share), map["a" := Files(500, 0, true, true, true, false)];
    GrowthOfOne(l, grown, "a");
    RestartExactly(l, grown);
  }

  lemma GrowthOfOne(l: Ledger, left: map<JobId, Files>, id: JobId)
    requires l.Ids() == {id}
    ensures TotalGrowth(l, left) == Growth(l, left, id)
  {
    var growth := map x <- l.Ids() :: Growth(l, left, x);
    assert growth == map[][id := Growth(l, left, id)];
    TotalUpdated(map[], id, Growth(l, left, id));
  }
}
