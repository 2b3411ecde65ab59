/** What the records of the worker backend say about the operations that led to them (control_plane/execution.py). */
module WorkerHistory {
  import opened Basics
  import opened Execution
  import opened ExecutionProofs

  predicate IsCancelled(records: Records, key: Key) { key in records && records[key].status == CANCELLED }

  // ----- a cancelled job stays cancelled

  ghost predicate NeverResumed(setup: Setup, ops: seq<WorkerOp>, key: Key) {
    forall op :: op in ops && op.WResume? ==> setup.KeyOf(op.request) != key
  }

  lemma CancelledStays(setup: Setup, world: World, op: WorkerOp, key: Key)
    requires Keyed(world.records) && IsCancelled(world.records, key)
    requires op.WResume? ==> setup.KeyOf(op.request) != key
    ensures RecordAt(Next(setup, world, op).records, key) == RecordAt(world.records, key)
    ensures Calls(Next(setup, world, op).calls, key) == Calls(world.calls, key)
  {
    hide ActiveCount, ProjectQuota.Refusal, Finish, Trim;
    if setup.KeyOf(op.request) != key {
      OperationShape(setup, world.records, op);
    }
  }

  /** A cancelled job that nobody resumes is never run again and its record never changes, late and duplicate
      deliveries included. */
  lemma {:induction false} CancelledIsFinal(setup: Setup, world: World, ops: seq<WorkerOp>, key: Key)
    requires Safe(setup, world) && IsCancelled(world.records, key) && NeverResumed(setup, ops, key)
    ensures RecordAt(After(setup, world, ops).records, key) == RecordAt(world.records, key)
    ensures Calls(After(setup, world, ops).calls, key) == Calls(world.calls, key)
    decreases |ops|
  {
    hide Next;
    if ops != [] {
      var prefix, op := ops[..|ops| - 1], ops[|ops| - 1];
      CancelledIsFinal(setup, world, prefix, key);
      RunIsSafe(setup, world, prefix);
      assert op in ops;
      CancelledStays(setup, After(setup, world, prefix), op, key);
    }
  }

  // ----- every record has its cause

  /** The limits of a quota on one request. */
  predicate WithinBudgets(quota: ProjectQuota, request: Request) {
    && quota.maxConcurrency >= 1 && quota.maxMatrixJobs >= 1 && request.matrixJobs <= quota.maxMatrixJobs
    && request.budget.cpuCores * request.budget.runtimeSeconds as real / 3600.0 <= quota.maxCpuHoursPerRun
    && request.budget.memoryGb <= quota.maxMemoryGb && request.budget.runtimeSeconds <= quota.maxRuntimeSeconds
  }

  /** A new job is refused exactly when it is over budget or the project has no room for another active job. */
  lemma SubmitRefusedExactlyWhen(setup: Setup, records: Records, request: Request)
    requires setup.KeyOf(request) !in records
    ensures WorkerSubmit(setup, records, request).reply.Refused? == LocalSubmit(setup, records, request).reply.Refused?
    ensures WorkerSubmit(setup, records, request).reply.Refused?
       <==> !WithinBudgets(setup.quota, request) || |ActiveJobs(records, request.projectId)| >= setup.quota.maxConcurrency
  {
    hide ActiveCount;
    ActiveJobsCounted(records, request.projectId);
  }

  /** The jobs of a project that are queued or running. */
  ghost function ActiveJobs(records: Records, project: string): set<Key> {
    set k | k in records && records[k].projectId == project && (records[k].status == QUEUED || records[k].status == RUNNING)
  }

  lemma ActiveJobsCounted(records: Records, project: string)
    ensures ActiveCount(records, project) == |ActiveJobs(records, project)|
  {
    assert ActiveJobs(records, project) == set k | k in records && records[k].projectId == project && IsActive(records[k]);
  }

  /** Some operation of the run asked for the job within the quota. */
  ghost predicate Admitted(setup: Setup, ops: seq<WorkerOp>, key: Key) {
    exists op :: op in ops && setup.KeyOf(op.request) == key && WithinBudgets(setup.quota, op.request)
  }

  /** A delivery of the run made the handler return what the record holds. */
  ghost predicate Produced(setup: Setup, ops: seq<WorkerOp>, key: Key, r: ExecutionRecord) {
    exists op :: op in ops && op.WDeliver? && setup.KeyOf(op.request) == key
      && setup.handler(op.request) == Returns(Outcome(r.artifactIds, if r.manifestDigest.Some? then r.manifestDigest.value else ""))
      && r.manifestDigest.Some? && r.lastDeliveryId == Some(Trim(op.delivery)) && r.error.None?
  }

  /** A delivery of the run made the handler raise what the record holds. */
  ghost predicate Broke(setup: Setup, ops: seq<WorkerOp>, key: Key, r: ExecutionRecord) {
    exists op :: op in ops && op.WDeliver? && setup.KeyOf(op.request) == key && r.error.Some?
      && setup.handler(op.request) == Fails(r.error.value) && r.lastDeliveryId == Some(Trim(op.delivery))
  }

  ghost predicate WasCancelled(setup: Setup, ops: seq<WorkerOp>, key: Key) {
    exists op :: op in ops && op.WCancel? && setup.KeyOf(op.request) == key
  }

  /** The status of the record has its cause among the operations; nothing is left running. */
  ghost predicate Caused(setup: Setup, ops: seq<WorkerOp>, key: Key, r: ExecutionRecord) {
    match r.status
    case QUEUED => r.error.None?
    case RUNNING => false
    case SUCCEEDED => Produced(setup, ops, key, r)
    case FAILED => Broke(setup, ops, key, r)
    case CANCELLED => WasCancelled(setup, ops, key)
  }

  ghost predicate Explained(setup: Setup, ops: seq<WorkerOp>, records: Records) {
    forall key :: key in records ==> Admitted(setup, ops, key) && Caused(setup, ops, key, records[key])
  }

  lemma CauseRemains(setup: Setup, prefix: seq<WorkerOp>, op: WorkerOp, key: Key, r: ExecutionRecord)
    ensures Admitted(setup, prefix, key) ==> Admitted(setup, prefix + [op], key)
    ensures Caused(setup, prefix, key, r) ==> Caused(setup, prefix + [op], key, r)
  {
    hide WithinBudgets, Trim;
    var ops := prefix + [op];
    assert forall o :: o in prefix ==> o in ops;
  }

  lemma StepIsExplained(setup: Setup, prefix: seq<WorkerOp>, op: WorkerOp, records: Records)
    requires Keyed(records) && Explained(setup, prefix, records)
    ensures Explained(setup, prefix + [op], WorkerOperation(setup, records, op).records)
  {
    hide WorkerOperation, Admitted, Caused;
    var ops, s := prefix + [op], WorkerOperation(setup, records, op);
    OperationShape(setup, records, op);
    forall key | key in s.records ensures Admitted(setup, ops, key) && Caused(setup, ops, key, s.records[key]) {
      if key in records {
        CauseRemains(setup, prefix, op, key, records[key]);
      }
      if key == setup.KeyOf(op.request) {
        OwnRecord(setup, prefix, op, records);
      }
    }
  }

  /** The record that an operation leaves at its own key. */
  lemma OwnRecord(setup: Setup, prefix: seq<WorkerOp>, op: WorkerOp, records: Records)
    requires Keyed(records) && Explained(setup, prefix, records)
    ensures var key, s := setup.KeyOf(op.request), WorkerOperation(setup, records, op);
      key in s.records ==> Admitted(setup, prefix + [op], key) && Caused(setup, prefix + [op], key, s.records[key])
  {
    hide ActiveCount, Trim, Admitted, Caused;
    var key, ops := setup.KeyOf(op.request), prefix + [op];
    if key in records {
      CauseRemains(setup, prefix, op, key, records[key]);
      KnownJob(setup, prefix, op, records);
    } else {
      NewJob(setup, prefix, op, records);
    }
  }

  lemma NewJob(setup: Setup, prefix: seq<WorkerOp>, op: WorkerOp, records: Records)
    requires setup.KeyOf(op.request) !in records
    ensures var key, s := setup.KeyOf(op.request), WorkerOperation(setup, records, op);
      key in s.records ==> Admitted(setup, prefix + [op], key) && Caused(setup, prefix + [op], key, s.records[key])
  {
    hide ActiveCount, Trim, Admitted, Caused, ProjectQuota.Refusal, WithinBudgets, Finish;
    var key, request := setup.KeyOf(op.request), op.request;
    var ops, queued := prefix + [op], Fresh(setup, request, QUEUED);
    assert op in ops;
    RefusalExactlyWhen(setup.quota, request, ActiveCount(records, request.projectId));
    if setup.quota.Refusal(request, ActiveCount(records, request.projectId)).None? {
      JustAdmitted(setup, ops, op);
      QueuedIsCaused(setup, ops, key, queued);
      if op.WCancel? {
        CancelIsCause(setup, ops, op, queued.(status := CANCELLED));
      }
      if op.WDeliver? && Trim(op.delivery) != "" {
        DeliveryIsCause(setup, ops, op, records[key := queued], queued);
      }
    }
  }

  lemma RefusalExactlyWhen(quota: ProjectQuota, request: Request, active: nat)
    ensures quota.Refusal(request, active).None? <==> WithinBudgets(quota, request) && active < quota.maxConcurrency
  {}

  lemma JustAdmitted(setup: Setup, ops: seq<WorkerOp>, op: WorkerOp)
    requires op in ops && WithinBudgets(setup.quota, op.request)
    ensures Admitted(setup, ops, setup.KeyOf(op.request))
  {
    hide WithinBudgets;
  }

  lemma QueuedIsCaused(setup: Setup, ops: seq<WorkerOp>, key: Key, r: ExecutionRecord)
    requires r.status == QUEUED && r.error.None?
    ensures Caused(setup, ops, key, r)
  {}

  lemma CancelIsCause(setup: Setup, ops: seq<WorkerOp>, op: WorkerOp, r: ExecutionRecord)
    requires op in ops && op.WCancel? && r.status == CANCELLED
    ensures Caused(setup, ops, setup.KeyOf(op.request), r)
  {}

  /** What running a delivery leaves is what its handler returned or raised. */
  lemma DeliveryIsCause(setup: Setup, ops: seq<WorkerOp>, op: WorkerOp, records: Records, existing: ExecutionRecord)
    requires op in ops && op.WDeliver? && existing.status != SUCCEEDED && existing.status != CANCELLED
    ensures var key := setup.KeyOf(op.request);
      var s := DeliverExisting(setup, records, op.request, Trim(op.delivery), existing);
      key in s.records && Caused(setup, ops, key, s.records[key])
  {
    hide Trim;
  }

  lemma KnownJob(setup: Setup, prefix: seq<WorkerOp>, op: WorkerOp, records: Records)
    requires setup.KeyOf(op.request) in records && Keyed(records)
    requires Caused(setup, prefix, setup.KeyOf(op.request), records[setup.KeyOf(op.request)])
    requires Caused(setup, prefix + [op], setup.KeyOf(op.request), records[setup.KeyOf(op.request)])
    ensures var key, s := setup.KeyOf(op.request), WorkerOperation(setup, records, op);
      key in s.records && Caused(setup, prefix + [op], key, s.records[key])
  {
    hide ActiveCount, Trim, ProjectQuota.Refusal, Caused, Finish;
    var key, ops, r := setup.KeyOf(op.request), prefix + [op], records[setup.KeyOf(op.request)];
    assert op in ops;
    QueuedIsCaused(setup, ops, key, r.(status := QUEUED, error := None));
    if op.WCancel? {
      CancelIsCause(setup, ops, op, r.(status := CANCELLED));
    }
    if op.WDeliver? && r.status != SUCCEEDED && r.status != CANCELLED {
      DeliveryIsCause(setup, ops, op, records, r);
    }
  }

  /** Over every run of a new worker, each record was admitted within its quota, holds what the handler returned
      or raised for one of its deliveries, and is cancelled only because it was; nothing is left running. */
  lemma {:induction false} EveryRecordIsExplained(setup: Setup, ops: seq<WorkerOp>)
    ensures Explained(setup, ops, After(setup, World(map[], []), ops).records)
    decreases |ops|
  {
    hide Explained, Next;
    if ops == [] {
      NothingToExplain(setup);
    } else {
      var prefix, op := ops[..|ops| - 1], ops[|ops| - 1];
      EveryRecordIsExplained(setup, prefix);
      EveryRunIsSafe(setup, prefix);
      StepOfRun(setup, prefix, op, After(setup, World(map[], []), prefix));
      assert prefix + [op] == ops;
    }
  }

  lemma NothingToExplain(setup: Setup)
    ensures Explained(setup, [], map[])
  {}

  lemma StepOfRun(setup: Setup, prefix: seq<WorkerOp>, op: WorkerOp, world: World)
    requires Safe(setup, world) && Explained(setup, prefix, world.records)
    ensures Explained(setup, prefix + [op], Next(setup, world, op).records)
  {
    hide Explained, WorkerOperation;
    StepIsExplained(setup, prefix, op, world.records);
  }

  // ----- who calls the handler

  predicate RunsJob(setup: Setup, records: Records, op: WorkerOp) {
    var key := setup.KeyOf(op.request);
    && op.WDeliver? && Trim(op.delivery) != ""
    && (if key in records then records[key].status != SUCCEEDED && records[key].status != CANCELLED
        else WithinBudgets(setup.quota, op.request) && ActiveCount(records, op.request.projectId) < setup.quota.maxConcurrency)
  }

  /** The handler is called exactly by a delivery with an id, of a job that has neither succeeded nor been
      cancelled, or of a new job that the quota admits. */
  lemma CalledExactlyWhen(setup: Setup, records: Records, op: WorkerOp)
    ensures WorkerOperation(setup, records, op).called <==> RunsJob(setup, records, op)
  {
    hide ActiveCount, Trim, ProjectQuota.Refusal, WithinBudgets, Finish;
    RefusalExactlyWhen(setup.quota, op.request, ActiveCount(records, op.request.projectId));
    var key := setup.KeyOf(op.request);
    var existing := if key in records then records[key] else Fresh(setup, op.request, QUEUED);
    if op.WDeliver? {
      FinishCalls(setup, if key in records then records else records[key := existing], op.request,
                  existing.(status := RUNNING, attempts := existing.attempts + 1, lastDeliveryId := Some(Trim(op.delivery)), error := None));
    }
  }
}
