/** The execution backends of the control plane (control_plane/execution.py): the golden local backend,
    the queue and worker backend, and why the second refines the first. */
module Execution {
  import opened Basics

  datatype Budget = Budget(cpuCores: real, memoryGb: real, runtimeSeconds: int) {
    function CpuHours(): real { cpuCores * runtimeSeconds as real / 3600.0 }
  }

  /** A job envelope; `payload` stands for the references it carries. */
  datatype Request = Request(projectId: string, payload: string, budget: Budget, matrixJobs: int)

  datatype ProjectQuota = ProjectQuota(
    maxConcurrency: int, maxMatrixJobs: int, maxCpuHoursPerRun: real, maxMemoryGb: real, maxRuntimeSeconds: int)
  {
    /** `validate`: the first check that fails, if any. */
    function Refusal(request: Request, activeRuns: int): Option<string> {
      if maxConcurrency < 1 || maxMatrixJobs < 1 then Some("project quota concurrency and matrix limits must be positive")
      else if activeRuns >= maxConcurrency then Some("project concurrency quota exceeded")
      else if request.matrixJobs > maxMatrixJobs then Some("experiment matrix job budget exceeded")
      else if request.budget.CpuHours() > maxCpuHoursPerRun then Some("CPU-hour budget exceeded")
      else if request.budget.memoryGb > maxMemoryGb then Some("memory budget exceeded")
      else if request.budget.runtimeSeconds > maxRuntimeSeconds then Some("runtime budget exceeded")
      else None
    }
  }

  datatype Status = QUEUED | RUNNING | SUCCEEDED | FAILED | CANCELLED

  datatype Outcome = Outcome(artifactIds: seq<string>, manifestDigest: string)

  /** What a handler does: return an outcome or raise. */
  datatype HandlerResult = Returns(outcome: Outcome) | Fails(message: string)

  datatype ExecutionRecord = ExecutionRecord(
    projectId: string, businessId: string, status: Status, attempts: nat, artifactIds: seq<string>,
    manifestDigest: Option<string>, lastDeliveryId: Option<string>, error: Option<string>)

  type Key = (string, string)

  type Records = map<Key, ExecutionRecord>

  /** How a backend is set up: the deterministic handler, the business digest, and the quota. */
  datatype Setup = Setup(handler: Request -> HandlerResult, businessId: Request -> string, quota: ProjectQuota) {
    function KeyOf(request: Request): Key { (request.projectId, businessId(request)) }
  }

  /** A call returns a record or raises; `Failed` is the handler's own exception passed on. */
  datatype Reply = Returned(record: ExecutionRecord) | Refused(reason: string) | Failed(message: string)

  function Fresh(setup: Setup, request: Request, status: Status): ExecutionRecord {
    ExecutionRecord(request.projectId, setup.businessId(request), status, 0, [], None, None, None)
  }

  predicate IsActive(r: ExecutionRecord) { r.status == QUEUED || r.status == RUNNING }

  /** `active_count`. */
  function ActiveCount(records: Records, project: string): nat {
    |set k | k in records && records[k].projectId == project && IsActive(records[k])|
  }

  /** Each record is stored under its own project and business id. */
  ghost predicate Keyed(records: Records) {
    forall k :: k in records ==> (records[k].projectId, records[k].businessId) == k
  }

  // ----- the backends as functions on the store
  // Each returns the new store, the reply, and whether the handler was called.

  datatype Step = Step(records: Records, reply: Reply, called: bool)

  function Finish(setup: Setup, records: Records, request: Request, running: ExecutionRecord): Step {
    var key := setup.KeyOf(request);
    match setup.handler(request)
    case Fails(message) =>
      Step(records[key := running.(status := FAILED, error := Some(message))], Failed(message), true)
    case Returns(outcome) =>
      var done := running.(status := SUCCEEDED, artifactIds := outcome.artifactIds, manifestDigest := Some(outcome.manifestDigest));
      Step(records[key := done], Returned(done), true)
  }

  /** `LocalExecutionBackend._run`: a fresh running record that keeps only the attempt count. */
  function LocalRun(setup: Setup, records: Records, request: Request): Step {
    var key := setup.KeyOf(request);
    var attempts := (if key in records then records[key].attempts else 0) + 1;
    Finish(setup, records, request, Fresh(setup, request, RUNNING).(attempts := attempts))
  }

  function LocalSubmit(setup: Setup, records: Records, request: Request): Step {
    var key := setup.KeyOf(request);
    if key in records then Step(records, Returned(records[key]), false)
    else
      var refusal := setup.quota.Refusal(request, ActiveCount(records, request.projectId));
      if refusal.Some? then Step(records, Refused(refusal.value), false)
      else LocalRun(setup, records[key := Fresh(setup, request, QUEUED)], request)
  }

  function LocalCancel(setup: Setup, records: Records, request: Request): Step {
    var key := setup.KeyOf(request);
    if key !in records then
      Step(records[key := Fresh(setup, request, CANCELLED)], Returned(Fresh(setup, request, CANCELLED)), false)
    else if records[key].status == SUCCEEDED || records[key].status == CANCELLED then Step(records, Returned(records[key]), false)
    else
      var cancelled := records[key].(status := CANCELLED);
      Step(records[key := cancelled], Returned(cancelled), false)
  }

  function LocalResume(setup: Setup, records: Records, request: Request): Step {
    var key := setup.KeyOf(request);
    if key !in records then LocalSubmit(setup, records, request)
    else if records[key].status != CANCELLED && records[key].status != FAILED then Step(records, Returned(records[key]), false)
    else
      var refusal := setup.quota.Refusal(request, ActiveCount(records, request.projectId));
      if refusal.Some? then Step(records, Refused(refusal.value), false)
      else LocalRun(setup, records[key := records[key].(status := QUEUED, error := None)], request)
  }

  function WorkerSubmit(setup: Setup, records: Records, request: Request): Step {
    var key := setup.KeyOf(request);
    if key in records then Step(records, Returned(records[key]), false)
    else
      var refusal := setup.quota.Refusal(request, ActiveCount(records, request.projectId));
      if refusal.Some? then Step(records, Refused(refusal.value), false)
      else Step(records[key := Fresh(setup, request, QUEUED)], Returned(Fresh(setup, request, QUEUED)), false)
  }

  /** `deliver` for a record that exists: a succeeded or cancelled one is returned, any other is run, also
      a failed one. The running record keeps what the existing one carries. */
  function DeliverExisting(setup: Setup, records: Records, request: Request, delivery: string, existing: ExecutionRecord): Step {
    if existing.status == SUCCEEDED || existing.status == CANCELLED then Step(records, Returned(existing), false)
    else
      Finish(setup, records, request,
             existing.(status := RUNNING, attempts := existing.attempts + 1, lastDeliveryId := Some(delivery), error := None))
  }

  function WorkerDeliver(setup: Setup, records: Records, request: Request, delivery: string): Step {
    var key := setup.KeyOf(request);
    if Trim(delivery) == "" then Step(records, Refused("delivery_id must be non-empty"), false)
    else if key in records then DeliverExisting(setup, records, request, Trim(delivery), records[key])
    else
      var submitted := WorkerSubmit(setup, records, request);
      if !submitted.reply.Returned? then submitted
      else DeliverExisting(setup, submitted.records, request, Trim(delivery), submitted.reply.record)
  }

  function WorkerCancel(setup: Setup, records: Records, request: Request): Step {
    var key := setup.KeyOf(request);
    var submitted := WorkerSubmit(setup, records, request);
    if !submitted.reply.Returned? then submitted
    else
      var existing := submitted.reply.record;
      if existing.status == SUCCEEDED || existing.status == CANCELLED then Step(submitted.records, Returned(existing), false)
      else Step(submitted.records[key := existing.(status := CANCELLED)], Returned(existing.(status := CANCELLED)), false)
  }

  function WorkerResume(setup: Setup, records: Records, request: Request): Step {
    var key := setup.KeyOf(request);
    if key !in records then WorkerSubmit(setup, records, request)
    else if records[key].status != CANCELLED && records[key].status != FAILED then Step(records, Returned(records[key]), false)
    else
      var refusal := setup.quota.Refusal(request, ActiveCount(records, request.projectId));
      if refusal.Some? then Step(records, Refused(refusal.value), false)
      else
        var queued := records[key].(status := QUEUED, error := None);
        Step(records[key := queued], Returned(queued), false)
  }

  // ----- the objects

  class MemoryExecutionStore {
    var records: Records

    constructor ()
      ensures records == map[]
    {
      records := map[];
    }

    method Get(key: Key) returns (r: Option<ExecutionRecord>)
      ensures r == if key in records then Some(records[key]) else None
    {
      r := if key in records then Some(records[key]) else None;
    }

    method Put(record: ExecutionRecord)
      modifies this
      ensures records == old(records)[(record.projectId, record.businessId) := record]
    {
      records := records[(record.projectId, record.businessId) := record];
    }
  }

  class LocalExecutionBackend {
    const setup: Setup
    const store: MemoryExecutionStore

    constructor (setup: Setup, store: MemoryExecutionStore)
      ensures this.setup == setup && this.store == store
    {
      this.setup := setup;
      this.store := store;
    }

    method Submit(request: Request) returns (reply: Reply, ghost called: bool)
      requires Keyed(store.records)
      modifies store
      ensures Keyed(store.records)
      ensures Step(store.records, reply, called) == LocalSubmit(setup, old(store.records), request)
    {
      var key := setup.KeyOf(request);
      var existing := store.Get(key);
      if existing.Some? {
        return Returned(existing.value), false;
      }
      var refusal := setup.quota.Refusal(request, ActiveCount(store.records, request.projectId));
      if refusal.Some? {
        return Refused(refusal.value), false;
      }
      store.Put(Fresh(setup, request, QUEUED));
      reply, called := Run(request);
    }

    method Run(request: Request) returns (reply: Reply, ghost called: bool)
      requires Keyed(store.records)
      modifies store
      ensures Keyed(store.records)
      ensures Step(store.records, reply, called) == LocalRun(setup, old(store.records), request)
    {
      var key := setup.KeyOf(request);
      var current := store.Get(key);
      var attempts := (if current.Some? then current.value.attempts else 0) + 1;
      var running := Fresh(setup, request, RUNNING).(attempts := attempts);
      store.Put(running);
      called := true;
      match setup.handler(request) {
        case Fails(message) =>
          store.Put(running.(status := FAILED, error := Some(message)));
          reply := Failed(message);
        case Returns(outcome) =>
          var done := running.(status := SUCCEEDED, artifactIds := outcome.artifactIds,
                               manifestDigest := Some(outcome.manifestDigest));
          store.Put(done);
          reply := Returned(done);
      }
      assert store.records == LocalRun(setup, old(store.records), request).records;
    }

    method Cancel(request: Request) returns (reply: Reply)
      requires Keyed(store.records)
      modifies store
      ensures Keyed(store.records)
      ensures Step(store.records, reply, false) == LocalCancel(setup, old(store.records), request)
    {
      var key := setup.KeyOf(request);
      var existing := store.Get(key);
      if existing.None? {
        store.Put(Fresh(setup, request, CANCELLED));
        return Returned(Fresh(setup, request, CANCELLED));
      }
      if existing.value.status == SUCCEEDED || existing.value.status == CANCELLED {
        return Returned(existing.value);
      }
      var cancelled := existing.value.(status := CANCELLED);
      store.Put(cancelled);
      reply := Returned(cancelled);
    }

    method Resume(request: Request) returns (reply: Reply, ghost called: bool)
      requires Keyed(store.records)
      modifies store
      ensures Keyed(store.records)
      ensures Step(store.records, reply, called) == LocalResume(setup, old(store.records), request)
    {
      var key := setup.KeyOf(request);
      var existing := store.Get(key);
      if existing.None? {
        reply, called := Submit(request);
        return;
      }
      if existing.value.status != CANCELLED && existing.value.status != FAILED {
        return Returned(existing.value), false;
      }
      var refusal := setup.quota.Refusal(request, ActiveCount(store.records, request.projectId));
      if refusal.Some? {
        return Refused(refusal.value), false;
      }
      store.Put(existing.value.(status := QUEUED, error := None));
      reply, called := Run(request);
    }
  }

  class FakeWorkerExecutionBackend {
    const setup: Setup
    const store: MemoryExecutionStore

    constructor (setup: Setup, store: MemoryExecutionStore)
      ensures this.setup == setup && this.store == store
    {
      this.setup := setup;
      this.store := store;
    }

    method Submit(request: Request) returns (reply: Reply)
      requires Keyed(store.records)
      modifies store
      ensures Keyed(store.records)
      ensures Step(store.records, reply, false) == WorkerSubmit(setup, old(store.records), request)
    {
      var existing := store.Get(setup.KeyOf(request));
      if existing.Some? {
        return Returned(existing.value);
      }
      var refusal := setup.quota.Refusal(request, ActiveCount(store.records, request.projectId));
      if refusal.Some? {
        return Refused(refusal.value);
      }
      store.Put(Fresh(setup, request, QUEUED));
      reply := Returned(Fresh(setup, request, QUEUED));
    }

    method Deliver(request: Request, deliveryId: string) returns (reply: Reply, ghost called: bool)
      requires Keyed(store.records)
      modifies store
      ensures Keyed(store.records)
      ensures Step(store.records, reply, called) == WorkerDeliver(setup, old(store.records), request, deliveryId)
    {
      hide Finish, ProjectQuota.Refusal, ActiveCount, Trim;
      var delivery := Trim(deliveryId);
      if delivery == "" {
        return Refused("delivery_id must be non-empty"), false;
      }
      var found := store.Get(setup.KeyOf(request));
      var existing;
      if found.Some? {
        existing := found.value;
      } else {
        reply := Submit(request);
        if !reply.Returned? {
          return reply, false;
        }
        existing := reply.record;
      }
      if existing.status == SUCCEEDED || existing.status == CANCELLED {
        return Returned(existing), false;
      }
      reply, called := RunDelivery(request, delivery, existing);
    }

    /** The second half of `deliver`: the handler runs on the record found or just queued. */
    method RunDelivery(request: Request, delivery: string, existing: ExecutionRecord) returns (reply: Reply, ghost called: bool)
      requires Keyed(store.records) && (existing.projectId, existing.businessId) == setup.KeyOf(request)
      requires existing.status != SUCCEEDED && existing.status != CANCELLED
      modifies store
      ensures Keyed(store.records)
      ensures Step(store.records, reply, called) == DeliverExisting(setup, old(store.records), request, delivery, existing)
    {
      var running := existing.(status := RUNNING, attempts := existing.attempts + 1,
                               lastDeliveryId := Some(delivery), error := None);
      store.Put(running);
      called := true;
      match setup.handler(request) {
        case Fails(message) =>
          store.Put(running.(status := FAILED, error := Some(message)));
          reply := Failed(message);
        case Returns(outcome) =>
          var done := running.(status := SUCCEEDED, artifactIds := outcome.artifactIds,
                               manifestDigest := Some(outcome.manifestDigest));
          store.Put(done);
          reply := Returned(done);
      }
      assert store.records == Finish(setup, old(store.records), request, running).records;
    }

    method Cancel(request: Request) returns (reply: Reply)
      requires Keyed(store.records)
      modifies store
      ensures Keyed(store.records)
      ensures Step(store.records, reply, false) == WorkerCancel(setup, old(store.records), request)
    {
      var found := store.Get(setup.KeyOf(request));
      var existing;
      if found.Some? {
        existing := found.value;
      } else {
        reply := Submit(request);
        if !reply.Returned? {
          return;
        }
        existing := reply.record;
      }
      if existing.status == SUCCEEDED || existing.status == CANCELLED {
        return Returned(existing);
      }
      var cancelled := existing.(status := CANCELLED);
      store.Put(cancelled);
      reply := Returned(cancelled);
    }

    method Resume(request: Request) returns (reply: Reply)
      requires Keyed(store.records)
      modifies store
      ensures Keyed(store.records)
      ensures Step(store.records, reply, false) == WorkerResume(setup, old(store.records), request)
    {
      var existing := store.Get(setup.KeyOf(request));
      if existing.None? {
        reply := Submit(request);
        return;
      }
      if existing.value.status != CANCELLED && existing.value.status != FAILED {
        return Returned(existing.value);
      }
      var refusal := setup.quota.Refusal(request, ActiveCount(store.records, request.projectId));
      if refusal.Some? {
        return Refused(refusal.value);
      }
      var queued := existing.value.(status := QUEUED, error := None);
      store.Put(queued);
      reply := Returned(queued);
    }
  }
}
