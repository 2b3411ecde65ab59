/** The worker backend refines the local one, and its protocol is safe under any operation sequence. */
module ExecutionProofs {
  import opened Basics
  import opened Execution

  // ----- refinement

  datatype Op = Submit(request: Request) | Resume(request: Request) | Cancel(request: Request)

  function LocalDo(setup: Setup, records: Records, op: Op): Step {
    match op
    case Submit(request) => LocalSubmit(setup, records, request)
    case Resume(request) => LocalResume(setup, records, request)
    case Cancel(request) => LocalCancel(setup, records, request)
  }

  /** The worker driven to completion: one delivery whenever the returned record is queued. */
  function WorkerDo(setup: Setup, records: Records, op: Op, delivery: string): Step {
    match op
    case Cancel(request) => WorkerCancel(setup, records, request)
    case _ =>
      var first := if op.Submit? then WorkerSubmit(setup, records, op.request) else WorkerResume(setup, records, op.request);
      if first.reply.Returned? && first.reply.record.status == QUEUED
      then WorkerDeliver(setup, first.records, op.request, delivery)
      else first
  }

  function Forget(r: ExecutionRecord): ExecutionRecord { r.(lastDeliveryId := None) }

  /** The worker's records without their delivery ids. */
  function Strip(records: Records): Records {
    map k | k in records :: Forget(records[k])
  }

  function StripReply(reply: Reply): Reply {
    if reply.Returned? then Returned(Forget(reply.record)) else reply
  }

  /** Between driven operations nothing is queued or running, and only a succeeded record carries a result. */
  ghost predicate Settled(records: Records) {
    && Keyed(records)
    && (forall k :: k in records ==> !IsActive(records[k]))
    && (forall k :: k in records && records[k].status != SUCCEEDED ==>
          records[k].artifactIds == [] && records[k].manifestDigest.None?)
  }

  lemma SettledIsIdle(records: Records, project: string)
    requires Settled(records)
    ensures ActiveCount(records, project) == 0
  {
    assert (set k | k in records && records[k].projectId == project && IsActive(records[k])) == {};
  }

  lemma StripUpdate(records: Records, key: Key, r: ExecutionRecord)
    ensures Strip(records[key := r]) == Strip(records)[key := Forget(r)]
  {}

  /** Where the two sides part: a cancel of an unknown job that the quota would refuse. The local backend
      records the cancellation; the worker submits first and so raises. */
  predicate CancelsOverQuota(setup: Setup, records: Records, op: Op) {
    op.Cancel? && setup.KeyOf(op.request) !in records && setup.quota.Refusal(op.request, 0).Some?
  }

  lemma FinishStripped(setup: Setup, l: Records, w: Records, request: Request, a: ExecutionRecord, b: ExecutionRecord)
    requires Strip(w) == l && Forget(b) == a && a.lastDeliveryId.None?
    ensures var s, t := Finish(setup, l, request, a), Finish(setup, w, request, b);
      s.records == Strip(t.records) && s.reply == StripReply(t.reply)
  {
    var t := Finish(setup, w, request, b);
    StripUpdate(w, setup.KeyOf(request), t.records[setup.KeyOf(request)]);
  }

  lemma FinishOverwrites(setup: Setup, records: Records, request: Request, r: ExecutionRecord, running: ExecutionRecord)
    ensures Finish(setup, records[setup.KeyOf(request) := r], request, running) == Finish(setup, records, request, running)
  {
    var key := setup.KeyOf(request);
    match setup.handler(request)
    case Fails(message) =>
      assert records[key := r][key := running.(status := FAILED, error := Some(message))]
          == records[key := running.(status := FAILED, error := Some(message))];
    case Returns(outcome) =>
      var done := running.(status := SUCCEEDED, artifactIds := outcome.artifactIds, manifestDigest := Some(outcome.manifestDigest));
      assert records[key := r][key := done] == records[key := done];
  }

  /** Running a settled or new job: both sides finish the same record up to the delivery id. */
  lemma RunsAlike(setup: Setup, w: Records, request: Request, delivery: string, queued: ExecutionRecord)
    requires Trim(delivery) != "" && queued.status == QUEUED && queued.error.None? && queued.artifactIds == [] && queued.manifestDigest.None?
    requires queued.projectId == request.projectId && queued.businessId == setup.businessId(request)
    ensures var key := setup.KeyOf(request);
      var s := LocalRun(setup, Strip(w)[key := Forget(queued)], request);
      var t := WorkerDeliver(setup, w[key := queued], request, delivery);
      s.records == Strip(t.records) && s.reply == StripReply(t.reply) && s.called == t.called == true
  {
    hide Finish, Strip;
    var key := setup.KeyOf(request);
    var a := Fresh(setup, request, RUNNING).(attempts := queued.attempts + 1);
    var b := queued.(status := RUNNING, attempts := queued.attempts + 1, lastDeliveryId := Some(Trim(delivery)), error := None);
    FinishOverwrites(setup, Strip(w), request, Forget(queued), a);
    FinishOverwrites(setup, w, request, queued, b);
    FinishStripped(setup, Strip(w), w, request, a, b);
    FinishCalls(setup, Strip(w), request, a);
    FinishCalls(setup, w, request, b);
  }

  lemma FinishCalls(setup: Setup, records: Records, request: Request, running: ExecutionRecord)
    ensures Finish(setup, records, request, running).called
  {}

  ghost predicate Agree(s: Step, t: Step) { s.records == Strip(t.records) && s.reply == StripReply(t.reply) && s.called == t.called }

  lemma SubmitAgrees(setup: Setup, w: Records, request: Request, delivery: string)
    requires Settled(w) && Trim(delivery) != ""
    ensures Agree(LocalDo(setup, Strip(w), Submit(request)), WorkerDo(setup, w, Submit(request), delivery))
  {
    hide LocalRun, WorkerDeliver, ProjectQuota.Refusal, ActiveCount, Trim;
    SettledIsIdle(w, request.projectId);
    SettledIsIdle(Strip(w), request.projectId);
    RunsAlike(setup, w, request, delivery, Fresh(setup, request, QUEUED));
  }

  lemma ResumeAgrees(setup: Setup, w: Records, request: Request, delivery: string)
    requires Settled(w) && Trim(delivery) != ""
    ensures Agree(LocalDo(setup, Strip(w), Resume(request)), WorkerDo(setup, w, Resume(request), delivery))
  {
    hide LocalRun, WorkerDeliver, ProjectQuota.Refusal, ActiveCount, Trim;
    var key := setup.KeyOf(request);
    SettledIsIdle(w, request.projectId);
    SettledIsIdle(Strip(w), request.projectId);
    if key !in w {
      SubmitAgrees(setup, w, request, delivery);
    } else if w[key].status == FAILED || w[key].status == CANCELLED {
      RunsAlike(setup, w, request, delivery, w[key].(status := QUEUED, error := None));
    }
  }

  lemma CancelAgreesExactlyWhen(setup: Setup, w: Records, request: Request, delivery: string)
    requires Settled(w)
    ensures Agree(LocalDo(setup, Strip(w), Cancel(request)), WorkerDo(setup, w, Cancel(request), delivery))
      <==> !CancelsOverQuota(setup, w, Cancel(request))
    ensures CancelsOverQuota(setup, w, Cancel(request)) ==>
              LocalDo(setup, Strip(w), Cancel(request)).reply != StripReply(WorkerDo(setup, w, Cancel(request), delivery).reply)
  {
    hide ProjectQuota.Refusal, ActiveCount;
    var key := setup.KeyOf(request);
    SettledIsIdle(w, request.projectId);
    var cancelled := Fresh(setup, request, CANCELLED);
    StripUpdate(w, key, cancelled);
    if key in w {
      StripUpdate(w, key, w[key].(status := CANCELLED));
    } else {
      assert w[key := Fresh(setup, request, QUEUED)][key := cancelled] == w[key := cancelled];
    }
  }

  /** One driven operation: the two sides end with the same records, the same reply and the same handler
      calls exactly when the operation is not a cancel of an unknown job over quota. */
  lemma OperationAgreesExactlyWhen(setup: Setup, w: Records, op: Op, delivery: string)
    requires Settled(w) && Trim(delivery) != ""
    ensures Agree(LocalDo(setup, Strip(w), op), WorkerDo(setup, w, op, delivery)) <==> !CancelsOverQuota(setup, w, op)
    ensures CancelsOverQuota(setup, w, op) ==>
              LocalDo(setup, Strip(w), op).reply != StripReply(WorkerDo(setup, w, op, delivery).reply)
  {
    hide Agree, LocalDo, WorkerDo, Trim, Settled;
    match op
    case Submit(request) => SubmitAgrees(setup, w, request, delivery);
    case Resume(request) => ResumeAgrees(setup, w, request, delivery);
    case Cancel(request) => CancelAgreesExactlyWhen(setup, w, request, delivery);
  }

  /** Running a job leaves it finished: stored under its key, with one more attempt and not active. */
  lemma FinishShape(setup: Setup, records: Records, request: Request, running: ExecutionRecord)
    requires (running.projectId, running.businessId) == setup.KeyOf(request)
    ensures var key, s := setup.KeyOf(request), Finish(setup, records, request, running);
      && key in s.records && s.records == records[key := s.records[key]] && s.called
      && (s.records[key].projectId, s.records[key].businessId) == key
      && s.records[key].attempts == running.attempts && !IsActive(s.records[key])
      && (running.artifactIds == [] && running.manifestDigest.None? ==> CarriesNothing(s.records[key]))
  {}

  ghost predicate CarriesNothing(r: ExecutionRecord) {
    r.status != SUCCEEDED ==> r.artifactIds == [] && r.manifestDigest.None?
  }

  lemma SettledPut(records: Records, key: Key, r: ExecutionRecord)
    requires Settled(records) && (r.projectId, r.businessId) == key && !IsActive(r) && CarriesNothing(r)
    ensures Settled(records[key := r])
  {}

  lemma DeliverySettles(setup: Setup, w: Records, request: Request, delivery: string, queued: ExecutionRecord)
    requires Settled(w) && Trim(delivery) != "" && queued.status == QUEUED && queued.artifactIds == [] && queued.manifestDigest.None?
    requires (queued.projectId, queued.businessId) == setup.KeyOf(request)
    ensures Settled(WorkerDeliver(setup, w[setup.KeyOf(request) := queued], request, delivery).records)
  {
    hide Finish, Settled, Trim;
    var key := setup.KeyOf(request);
    var running := queued.(status := RUNNING, attempts := queued.attempts + 1, lastDeliveryId := Some(Trim(delivery)), error := None);
    FinishOverwrites(setup, w, request, queued, running);
    FinishShape(setup, w, request, running);
    SettledPut(w, key, Finish(setup, w, request, running).records[key]);
  }

  /** The driven worker settles again. */
  lemma WorkerSettles(setup: Setup, w: Records, op: Op, delivery: string)
    requires Settled(w) && Trim(delivery) != ""
    ensures Settled(WorkerDo(setup, w, op, delivery).records)
  {
    hide ProjectQuota.Refusal, ActiveCount, WorkerDeliver, Trim;
    var key := setup.KeyOf(op.request);
    DeliverySettles(setup, w, op.request, delivery, Fresh(setup, op.request, QUEUED));
    if key in w {
      assert CarriesNothing(w[key]);
      if w[key].status == FAILED || w[key].status == CANCELLED {
        DeliverySettles(setup, w, op.request, delivery, w[key].(status := QUEUED, error := None));
      }
    } else {
      var cancelled := Fresh(setup, op.request, CANCELLED);
      SettledPut(w, key, cancelled);
      assert w[key := Fresh(setup, op.request, QUEUED)][key := cancelled] == w[key := cancelled];
    }
  }

  datatype Driven = Driven(op: Op, delivery: string)

  function LocalReplies(setup: Setup, records: Records, run: seq<Driven>): seq<Reply>
    decreases |run|
  {
    if run == [] then []
    else
      var s := LocalDo(setup, records, run[0].op);
      [s.reply] + LocalReplies(setup, s.records, run[1..])
  }

  function LocalAfter(setup: Setup, records: Records, run: seq<Driven>): Records
    decreases |run|
  {
    if run == [] then records else LocalAfter(setup, LocalDo(setup, records, run[0].op).records, run[1..])
  }

  function WorkerReplies(setup: Setup, records: Records, run: seq<Driven>): seq<Reply>
    decreases |run|
  {
    if run == [] then []
    else
      var s := WorkerDo(setup, records, run[0].op, run[0].delivery);
      [StripReply(s.reply)] + WorkerReplies(setup, s.records, run[1..])
  }

  function WorkerAfter(setup: Setup, records: Records, run: seq<Driven>): Records
    decreases |run|
  {
    if run == [] then records
    else WorkerAfter(setup, WorkerDo(setup, records, run[0].op, run[0].delivery).records, run[1..])
  }

  ghost predicate Deliverable(run: seq<Driven>) {
    forall i :: 0 <= i < |run| ==> Trim(run[i].delivery) != ""
  }

  /** No call of the run is a cancel of a job unknown at that point which the quota would refuse. */
  ghost predicate QuotaRoom(setup: Setup, records: Records, run: seq<Driven>)
    decreases |run|
  {
    run != [] ==>
      !CancelsOverQuota(setup, records, run[0].op)
      && QuotaRoom(setup, WorkerDo(setup, records, run[0].op, run[0].delivery).records, run[1..])
  }

  /** The refinement: for any handler and any operation sequence, the driven worker answers every call like
      the local backend, up to delivery ids, exactly when no cancel of an unknown job is over quota; and then
      both end with the same records. */
  lemma {:induction false} WorkerRefinesLocalExactlyWhen(setup: Setup, w: Records, run: seq<Driven>)
    requires Settled(w) && Deliverable(run)
    ensures WorkerReplies(setup, w, run) == LocalReplies(setup, Strip(w), run) <==> QuotaRoom(setup, w, run)
    ensures QuotaRoom(setup, w, run) ==> Strip(WorkerAfter(setup, w, run)) == LocalAfter(setup, Strip(w), run)
    decreases |run|
  {
    hide LocalDo, WorkerDo, Strip, Settled, StripReply, CancelsOverQuota;
    if run != [] {
      var d := run[0];
      OperationAgreesExactlyWhen(setup, w, d.op, d.delivery);
      WorkerSettles(setup, w, d.op, d.delivery);
      var next := WorkerDo(setup, w, d.op, d.delivery);
      var s := LocalDo(setup, Strip(w), d.op);
      WorkerRefinesLocalExactlyWhen(setup, next.records, run[1..]);
      if CancelsOverQuota(setup, w, d.op) {
        assert WorkerReplies(setup, w, run)[0] == StripReply(next.reply);
        assert LocalReplies(setup, Strip(w), run)[0] == s.reply;
      } else {
        HeadTail(StripReply(next.reply), WorkerReplies(setup, next.records, run[1..]), LocalReplies(setup, s.records, run[1..]));
      }
    }
  }

  lemma HeadTail<T>(x: T, s: seq<T>, t: seq<T>)
    ensures [x] + s == [x] + t <==> s == t
  {
    assert ([x] + s)[1..] == s && ([x] + t)[1..] == t;
  }

  // ----- where the two sides part

  function ExampleSetup(maxConcurrency: int): Setup {
    Setup((r: Request) => Fails("handler failed"), (r: Request) => "run-1", ProjectQuota(maxConcurrency, 100, 24.0, 64.0, 86400))
  }

  function ExampleRequest(): Request { Request("project", "payload", Budget(1.0, 1.0, 3600), 1) }

  /** A quota without room: cancelling an unknown job is recorded by the local backend and refused by the worker. */
  lemma CancelOverQuotaDiverges()
    ensures LocalCancel(ExampleSetup(0), map[], ExampleRequest()).reply.Returned?
    ensures WorkerCancel(ExampleSetup(0), map[], ExampleRequest()).reply.Refused?
  {
    assert ExampleSetup(0).quota.Refusal(ExampleRequest(), ActiveCount(map[], "project")).Some?;
  }

  /** A failed job: submitting it again calls no handler on either side, delivering it again runs it. */
  lemma FailedJobsRunOnDelivery(setup: Setup, records: Records, request: Request, delivery: string)
    requires setup.KeyOf(request) in records && records[setup.KeyOf(request)].status == FAILED && Trim(delivery) != ""
    ensures !LocalSubmit(setup, records, request).called && !WorkerSubmit(setup, records, request).called
    ensures WorkerDeliver(setup, records, request, delivery).called
  {
    hide Trim;
  }

  // ----- safety of the worker protocol

  datatype WorkerOp =
    | WSubmit(request: Request)
    | WDeliver(request: Request, delivery: string)
    | WCancel(request: Request)
    | WResume(request: Request)

  /** The store together with the log of handler calls. */
  datatype World = World(records: Records, calls: seq<Key>)

  function WorkerOperation(setup: Setup, records: Records, op: WorkerOp): Step {
    match op
    case WSubmit(request) => WorkerSubmit(setup, records, request)
    case WDeliver(request, delivery) => WorkerDeliver(setup, records, request, delivery)
    case WCancel(request) => WorkerCancel(setup, records, request)
    case WResume(request) => WorkerResume(setup, records, request)
  }

  function Next(setup: Setup, world: World, op: WorkerOp): World {
    var s := WorkerOperation(setup, world.records, op);
    World(s.records, if s.called then world.calls + [setup.KeyOf(op.request)] else world.calls)
  }

  function After(setup: Setup, world: World, ops: seq<WorkerOp>): World
    decreases |ops|
  {
    if ops == [] then world else Next(setup, After(setup, world, ops[..|ops| - 1]), ops[|ops| - 1])
  }

  function Calls(calls: seq<Key>, key: Key): nat { multiset(calls)[key] }

  function Attempts(records: Records, key: Key): nat { if key in records then records[key].attempts else 0 }

  function Limit(setup: Setup): nat { if setup.quota.maxConcurrency >= 0 then setup.quota.maxConcurrency else 0 }

  /** The protocol invariant: `attempts` counts the handler calls of each job, and no project has more active
      jobs than its quota allows. */
  ghost predicate Safe(setup: Setup, world: World) {
    && Keyed(world.records)
    && (forall k :: Attempts(world.records, k) == Calls(world.calls, k))
    && (forall project :: ActiveCount(world.records, project) <= Limit(setup))
  }

  predicate HasSucceeded(records: Records, key: Key) { key in records && records[key].status == SUCCEEDED }

  /** The record that an operation on `request` leaves at its key. */
  ghost predicate Puts(setup: Setup, records: Records, request: Request, s: Step, r: ExecutionRecord) {
    var key := setup.KeyOf(request);
    && s.records == records[key := r]
    && (r.projectId, r.businessId) == key
    && !HasSucceeded(records, key)
    && r.attempts == Attempts(records, key) + (if s.called then 1 else 0)
    && (IsActive(r) ==> setup.quota.Refusal(request, ActiveCount(records, request.projectId)).None?)
  }

  /** Every operation either changes nothing and calls nobody, or stores one record at its own key: never
      over a succeeded one, with `attempts` raised exactly when the handler ran, and active only when the
      quota has room. */
  ghost predicate Shaped(setup: Setup, records: Records, request: Request, s: Step) {
    || (s.records == records && !s.called)
    || (setup.KeyOf(request) in s.records && Puts(setup, records, request, s, s.records[setup.KeyOf(request)]))
  }

  lemma SubmitShape(setup: Setup, records: Records, request: Request)
    ensures Shaped(setup, records, request, WorkerSubmit(setup, records, request))
  {
    hide ProjectQuota.Refusal, ActiveCount;
  }

  lemma CancelShape(setup: Setup, records: Records, request: Request)
    requires Keyed(records)
    ensures Shaped(setup, records, request, WorkerCancel(setup, records, request))
  {
    hide ProjectQuota.Refusal, ActiveCount;
    var key := setup.KeyOf(request);
    if key !in records {
      assert records[key := Fresh(setup, request, QUEUED)][key := Fresh(setup, request, CANCELLED)]
          == records[key := Fresh(setup, request, CANCELLED)];
    }
  }

  lemma ResumeShape(setup: Setup, records: Records, request: Request)
    requires Keyed(records)
    ensures Shaped(setup, records, request, WorkerResume(setup, records, request))
  {
    hide ProjectQuota.Refusal, ActiveCount;
  }

  lemma DeliverShape(setup: Setup, records: Records, request: Request, delivery: string)
    requires Keyed(records)
    ensures Shaped(setup, records, request, WorkerDeliver(setup, records, request, delivery))
  {
    hide ProjectQuota.Refusal, ActiveCount, Finish, Trim;
    var key := setup.KeyOf(request);
    var existing := if key in records then records[key] else Fresh(setup, request, QUEUED);
    var running := existing.(status := RUNNING, attempts := existing.attempts + 1,
                             lastDeliveryId := Some(Trim(delivery)), error := None);
    FinishShape(setup, records, request, running);
    FinishOverwrites(setup, records, request, Fresh(setup, request, QUEUED), running);
  }

  lemma OperationShape(setup: Setup, records: Records, op: WorkerOp)
    requires Keyed(records)
    ensures Shaped(setup, records, op.request, WorkerOperation(setup, records, op))
  {
    hide Shaped, Keyed, WorkerSubmit, WorkerDeliver, WorkerCancel, WorkerResume;
    match op
    case WSubmit(request) => SubmitShape(setup, records, request);
    case WDeliver(request, delivery) => DeliverShape(setup, records, request, delivery);
    case WCancel(request) => CancelShape(setup, records, request);
    case WResume(request) => ResumeShape(setup, records, request);
  }

  /** How storing a record moves the active counts. */
  lemma ActiveAfterPut(records: Records, key: Key, r: ExecutionRecord, project: string)
    ensures ActiveCount(records[key := r], project) <= ActiveCount(records, project) + (if IsActive(r) && r.projectId == project then 1 else 0)
  {
    var changed := records[key := r];
    var before := set k | k in records && records[k].projectId == project && IsActive(records[k]);
    var after := set k | k in changed && changed[k].projectId == project && IsActive(changed[k]);
    if IsActive(r) && r.projectId == project {
      SubsetCardinality(after, before + {key});
    } else {
      SubsetCardinality(after, before);
    }
  }

  lemma AdmittedBelowLimit(setup: Setup, request: Request, active: nat)
    requires setup.quota.Refusal(request, active).None?
    ensures active < Limit(setup)
  {}

  lemma OneMoreCall(calls: seq<Key>, key: Key, k: Key)
    ensures Calls(calls + [key], k) == Calls(calls, k) + (if k == key then 1 else 0)
  {}

  lemma OperationIsSafe(setup: Setup, world: World, op: WorkerOp)
    requires Safe(setup, world)
    ensures Safe(setup, Next(setup, world, op))
  {
    hide WorkerOperation, ActiveCount, ProjectQuota.Refusal, Calls, Limit;
    var s := WorkerOperation(setup, world.records, op);
    OperationShape(setup, world.records, op);
    forall k ensures Attempts(s.records, k) == Calls(Next(setup, world, op).calls, k) {
      OneMoreCall(world.calls, setup.KeyOf(op.request), k);
      assert Attempts(world.records, k) == Calls(world.calls, k);
    }
    if s.records != world.records || s.called {
      var key := setup.KeyOf(op.request);
      var r := s.records[key];
      forall project ensures ActiveCount(s.records, project) <= Limit(setup) {
        ActiveAfterPut(world.records, key, r, project);
        if IsActive(r) {
          AdmittedBelowLimit(setup, op.request, ActiveCount(world.records, op.request.projectId));
        }
      }
    }
  }

  /** Over every operation sequence, duplicate deliveries included: `attempts` counts the handler calls of
      its job and a project never has more active jobs than its quota allows. */
  lemma {:induction false} RunIsSafe(setup: Setup, world: World, ops: seq<WorkerOp>)
    requires Safe(setup, world)
    ensures Safe(setup, After(setup, world, ops))
    decreases |ops|
  {
    hide Safe, Next;
    if ops != [] {
      RunIsSafe(setup, world, ops[..|ops| - 1]);
      OperationIsSafe(setup, After(setup, world, ops[..|ops| - 1]), ops[|ops| - 1]);
    }
  }

  lemma EmptyIsSafe(setup: Setup)
    ensures Safe(setup, World(map[], []))
  {
    forall project ensures ActiveCount(map[], project) == 0 {
      var empty: Records := map[];
      assert (set k | k in empty && empty[k].projectId == project && IsActive(empty[k])) == {};
    }
  }

  /** A new worker: every run from the empty store is safe, and so `attempts` counts the calls of its handlers. */
  lemma EveryRunIsSafe(setup: Setup, ops: seq<WorkerOp>)
    ensures Safe(setup, After(setup, World(map[], []), ops))
  {
    hide Safe, After;
    EmptyIsSafe(setup);
    RunIsSafe(setup, World(map[], []), ops);
  }

  function RecordAt(records: Records, key: Key): Option<ExecutionRecord> {
    if key in records then Some(records[key]) else None
  }

  /** Once a job has succeeded its record never changes and its handler never runs again. */
  lemma {:induction false} SucceededIsFinal(setup: Setup, world: World, ops: seq<WorkerOp>, key: Key)
    requires Safe(setup, world) && HasSucceeded(world.records, key)
    ensures RecordAt(After(setup, world, ops).records, key) == RecordAt(world.records, key)
    ensures Calls(After(setup, world, ops).calls, key) == Calls(world.calls, key)
    decreases |ops|
  {
    hide WorkerOperation;
    if ops == [] {
    } else {
      var prefix, op := ops[..|ops| - 1], ops[|ops| - 1];
      SucceededIsFinal(setup, world, prefix, key);
      RunIsSafe(setup, world, prefix);
      SucceededStays(setup, After(setup, world, prefix), op, key);
    }
  }

  lemma SucceededStays(setup: Setup, world: World, op: WorkerOp, key: Key)
    requires Safe(setup, world) && HasSucceeded(world.records, key)
    ensures RecordAt(Next(setup, world, op).records, key) == RecordAt(world.records, key)
    ensures Calls(Next(setup, world, op).calls, key) == Calls(world.calls, key)
  {
    hide WorkerOperation, ActiveCount, ProjectQuota.Refusal;
    OperationShape(setup, world.records, op);
  }
}
