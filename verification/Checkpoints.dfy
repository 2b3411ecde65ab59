/** The certified checkpoints of the resumable daily sync (data/audited_daily_sync.py): one ordered pass
    over the steps that upgrades, verifies or invalidates each finished step. */
module Checkpoints {
  import opened Basics

  datatype SyncStep =
    | MarketFetch | FactorReconcile | DividendFetch | RawPromote | RawValidate
    | ExtendedSync | PitRefresh | MetadataRefresh | FreshnessGate | QlibPublish

  const CONTRACT_VERSION := "1.0"
  const STEPS := 10

  function Index(step: SyncStep): (i: nat)
    ensures i < STEPS && StepAt(i) == step
  {
    match step
    case MarketFetch => 0
    case FactorReconcile => 1
    case DividendFetch => 2
    case RawPromote => 3
    case RawValidate => 4
    case ExtendedSync => 5
    case PitRefresh => 6
    case MetadataRefresh => 7
    case FreshnessGate => 8
    case QlibPublish => 9
  }

  function StepAt(i: nat): SyncStep
    requires i < STEPS
  {
    [MarketFetch, FactorReconcile, DividendFetch, RawPromote, RawValidate,
     ExtendedSync, PitRefresh, MetadataRefresh, FreshnessGate, QlibPublish][i]
  }

  lemma IndexOfStep(i: nat)
    requires i < STEPS
    ensures Index(StepAt(i)) == i
  {}

  datatype Status = Succeeded | Invalidated | Unfinished(name: string)

  /** An entry of `raw_changes`; an empty string is a missing field. */
  datatype Change = Change(dataset: string, tradeDate: string, expected: string) {
    predicate Complete() { dataset != "" && tradeDate != "" && expected != "" }
  }

  datatype RawChanges = NotAMapping | NotAList | Listed(changes: seq<Change>)

  /** A step's output: its canonical text and how its `raw_changes` read. */
  datatype Output = Output(text: string, raw: RawChanges)

  datatype ArtifactManifest = Malformed | Manifest(digests: map<string, string>)

  /** A persisted step record. */
  datatype Record = Record(
    status: Status, output: Output, contractVersion: Option<string>, attempt: Option<int>,
    inputSha: Option<string>, outputSha: Option<string>, artifacts: ArtifactManifest, invalidatedReason: Option<string>)
  {
    predicate Certified() { contractVersion == Some(CONTRACT_VERSION) }
  }

  type Steps = map<SyncStep, Record>

  predicate HasSucceeded(steps: Steps, step: SyncStep) { step in steps && steps[step].status.Succeeded? }

  /** What a step's input digest covers. */
  datatype Payload = Payload(plan: string, step: SyncStep, predecessors: map<SyncStep, string>)

  datatype Root = StageMarket | PlanQuality | FactorHistory | StageDividend | RawStoreReport | ActiveManifest

  /** The world around the state: the stable plan identity, the digests, the files with their digests and the
      roots they lie under, and the content hash of each stored partition. */
  datatype World = World(
    plan: string, hashOutput: Output -> string, hashInput: Payload -> string,
    files: map<string, string>, rootsOf: string -> set<Root>, partitionHash: (string, string) -> string)

  // ----- digests

  /** The digest a successor hashes for this record: the stored one, or a fresh one when none is stored. */
  function OutputDigest(world: World, r: Record): string {
    if r.outputSha.Some? && r.outputSha.value != "" then r.outputSha.value else world.hashOutput(r.output)
  }

  function Predecessors(world: World, steps: Steps, step: SyncStep): map<SyncStep, string> {
    map p | p in steps && Index(p) < Index(step) && steps[p].status.Succeeded? :: OutputDigest(world, steps[p])
  }

  function InputOf(world: World, steps: Steps, step: SyncStep): Payload {
    Payload(world.plan, step, Predecessors(world, steps, step))
  }

  function StepInputSha(world: World, steps: Steps, step: SyncStep): string {
    world.hashInput(InputOf(world, steps, step))
  }

  function Roots(step: SyncStep): set<Root> {
    match step
    case MarketFetch => {StageMarket, PlanQuality}
    case FactorReconcile => {FactorHistory, StageMarket}
    case DividendFetch => {StageDividend}
    case RawValidate => {RawStoreReport}
    case QlibPublish => {ActiveManifest}
    case _ => {}
  }

  /** `_checkpoint_artifacts`: the digests of all files under the step's roots. */
  function CheckpointArtifacts(world: World, step: SyncStep): map<string, string> {
    map path | path in world.files && world.rootsOf(path) * Roots(step) != {} :: world.files[path]
  }

  // ----- one record

  function CertifiedRecord(world: World, runAttempt: int, step: SyncStep, r: Record, input: string): (c: Record)
    ensures c.Certified() && c.status == r.status && c.output == r.output && c.inputSha == Some(input)
  {
    var attempt :=
      if r.attempt.Some? && r.attempt.value != 0 then r.attempt.value
      else if runAttempt != 0 then runAttempt else 1;
    r.(contractVersion := Some(CONTRACT_VERSION), attempt := Some(attempt), inputSha := Some(input),
       outputSha := Some(world.hashOutput(r.output)), artifacts := Manifest(CheckpointArtifacts(world, step)))
  }

  function InvalidatedRecord(r: Record): Record {
    r.(status := Invalidated, invalidatedReason := Some("input_sha256_changed"))
  }

  datatype Defect = OutputChanged | ManifestMalformed | ArtifactChanged | RawOutputMalformed | PartitionChanged

  predicate ArtifactsIntact(world: World, digests: map<string, string>) {
    forall path :: path in digests ==> path in world.files && world.files[path] == digests[path]
  }

  predicate PartitionsIntact(world: World, changes: seq<Change>) {
    forall i :: 0 <= i < |changes| && changes[i].Complete() ==>
      world.partitionHash(changes[i].dataset, changes[i].tradeDate) == changes[i].expected
  }

  /** The exception that verifying a record with a matching input raises, if any. */
  function DefectOf(world: World, step: SyncStep, r: Record): Option<Defect> {
    if r.outputSha != Some(world.hashOutput(r.output)) then Some(OutputChanged)
    else if r.artifacts.Malformed? then Some(ManifestMalformed)
    else if !ArtifactsIntact(world, r.artifacts.digests) then Some(ArtifactChanged)
    else if step != RawPromote || r.output.raw.NotAList? then None
    else if r.output.raw.NotAMapping? then Some(RawOutputMalformed)
    else if !PartitionsIntact(world, r.output.raw.changes) then Some(PartitionChanged)
    else None
  }

  // ----- the operations as functions on the step records

  datatype Verdict = Reusable | NotReusable | Raised(defect: Defect)

  datatype Checked = Checked(steps: Steps, verdict: Verdict)

  function Certify(world: World, runAttempt: int, steps: Steps, step: SyncStep): Steps {
    if !HasSucceeded(steps, step) then steps
    else steps[step := CertifiedRecord(world, runAttempt, step, steps[step], StepInputSha(world, steps, step))]
  }

  /** `_verify_checkpoint_record`. */
  function Verify(world: World, runAttempt: int, steps: Steps, step: SyncStep): Checked {
    if !HasSucceeded(steps, step) then Checked(steps, NotReusable)
    else
      var upgraded := if steps[step].Certified() then steps else Certify(world, runAttempt, steps, step);
      var r := upgraded[step];
      if r.inputSha != Some(StepInputSha(world, upgraded, step))
      then Checked(upgraded[step := InvalidatedRecord(r)], NotReusable)
      else
        match DefectOf(world, step, r)
        case Some(defect) => Checked(upgraded, Raised(defect))
        case None => Checked(upgraded, Reusable)
  }

  /** `_validate_existing_checkpoints` after its first `k` steps; an exception ends the pass. */
  function Pass(world: World, runAttempt: int, steps: Steps, k: nat): Checked
    requires k <= STEPS
  {
    if k == 0 then Checked(steps, Reusable)
    else
      var before := Pass(world, runAttempt, steps, k - 1);
      if before.verdict.Raised? || !HasSucceeded(before.steps, StepAt(k - 1)) then before
      else Verify(world, runAttempt, before.steps, StepAt(k - 1))
  }

  /** `_finish_step`: the record is replaced by a succeeded one with the given output, and certified. */
  function Finish(world: World, runAttempt: int, steps: Steps, step: SyncStep, output: Output): Steps {
    Certify(world, runAttempt, steps[step := Record(Succeeded, output, None, None, None, None, Manifest(map[]), None)], step)
  }

  // ----- the object

  class AuditedResumableDailySyncService {
    var steps: Steps
    var runAttempt: int

    constructor (steps: Steps, runAttempt: int)
      ensures this.steps == steps && this.runAttempt == runAttempt
    {
      this.steps := steps;
      this.runAttempt := runAttempt;
    }

    method CertifyRecord(world: World, step: SyncStep)
      modifies this`steps
      ensures steps == Certify(world, runAttempt, old(steps), step)
    {
      if step !in steps || !steps[step].status.Succeeded? {
        return;
      }
      var record := steps[step];
      var attempt :=
        if record.attempt.Some? && record.attempt.value != 0 then record.attempt.value
        else if runAttempt != 0 then runAttempt else 1;
      var input := StepInputSha(world, steps, step);
      record := record.(contractVersion := Some(CONTRACT_VERSION));
      record := record.(attempt := Some(attempt));
      record := record.(inputSha := Some(input));
      record := record.(outputSha := Some(world.hashOutput(record.output)));
      record := record.(artifacts := Manifest(CheckpointArtifacts(world, step)));
      steps := steps[step := record];
    }

    method FinishStep(world: World, step: SyncStep, output: Output)
      modifies this`steps
      ensures steps == Finish(world, runAttempt, old(steps), step, output)
    {
      steps := steps[step := Record(Succeeded, output, None, None, None, None, Manifest(map[]), None)];
      CertifyRecord(world, step);
    }

    /** The loop over `raw_changes`: the first complete change whose partition differs raises. */
    method VerifyRawPromoteOutput(world: World, output: Output) returns (defect: Option<Defect>)
      ensures defect ==
        (match output.raw
         case NotAMapping => Some(RawOutputMalformed)
         case NotAList => None
         case Listed(changes) => if PartitionsIntact(world, changes) then None else Some(PartitionChanged))
    {
      match output.raw {
        case NotAMapping => return Some(RawOutputMalformed);
        case NotAList => return None;
        case Listed(changes) =>
          for i := 0 to |changes|
            invariant PartitionsIntact(world, changes[..i])
          {
            var change := changes[i];
            if change.Complete() && world.partitionHash(change.dataset, change.tradeDate) != change.expected {
              return Some(PartitionChanged);
            }
            assert changes[..i + 1] == changes[..i] + [change];
          }
          assert changes[..|changes|] == changes;
          return None;
      }
    }

    method VerifyCheckpointRecord(world: World, step: SyncStep) returns (verdict: Verdict)
      modifies this`steps
      ensures Checked(steps, verdict) == Verify(world, runAttempt, old(steps), step)
    {
      if step !in steps || !steps[step].status.Succeeded? {
        return NotReusable;
      }
      if steps[step].contractVersion != Some(CONTRACT_VERSION) {
        CertifyRecord(world, step);
      }
      var record := steps[step];
      if record.inputSha != Some(StepInputSha(world, steps, step)) {
        steps := steps[step := record.(status := Invalidated, invalidatedReason := Some("input_sha256_changed"))];
        return NotReusable;
      }
      if record.outputSha != Some(world.hashOutput(record.output)) {
        return Raised(OutputChanged);
      }
      if record.artifacts.Malformed? {
        return Raised(ManifestMalformed);
      }
      if !ArtifactsIntact(world, record.artifacts.digests) {
        return Raised(ArtifactChanged);
      }
      if step == RawPromote {
        var defect := VerifyRawPromoteOutput(world, record.output);
        if defect.Some? {
          return Raised(defect.value);
        }
      }
      return Reusable;
    }

    method ValidateExistingCheckpoints(world: World) returns (verdict: Verdict)
      modifies this`steps
      ensures Checked(steps, verdict) == Pass(world, runAttempt, old(steps), STEPS)
    {
      hide Verify, Pass, StepAt;
      verdict := Reusable;
      PassNext(world, runAttempt, steps, 0);
      for i := 0 to STEPS
        invariant Checked(steps, verdict) == Pass(world, runAttempt, old(steps), i)
        invariant !verdict.Raised?
      {
        var step := StepAt(i);
        PassNext(world, runAttempt, old(steps), i);
        if step in steps && steps[step].status.Succeeded? {
          verdict := VerifyCheckpointRecord(world, step);
          if verdict.Raised? {
            PassStopped(world, runAttempt, old(steps), i + 1, STEPS);
            return;
          }
        }
      }
    }
  }

  lemma PassNext(world: World, runAttempt: int, steps: Steps, k: nat)
    requires k < STEPS
    ensures var before := Pass(world, runAttempt, steps, k);
      Pass(world, runAttempt, steps, k + 1) ==
        if before.verdict.Raised? || !HasSucceeded(before.steps, StepAt(k)) then before
        else Verify(world, runAttempt, before.steps, StepAt(k))
    ensures Pass(world, runAttempt, steps, 0) == Checked(steps, Reusable)
  {
    hide Verify, StepAt;
  }

  /** Once raised, a pass stays where it is. */
  lemma {:induction false} PassStopped(world: World, runAttempt: int, steps: Steps, k: nat, n: nat)
    requires k <= n <= STEPS && Pass(world, runAttempt, steps, k).verdict.Raised?
    ensures Pass(world, runAttempt, steps, n) == Pass(world, runAttempt, steps, k)
    decreases n
  {
    hide Verify;
    if k < n {
      PassStopped(world, runAttempt, steps, k, n - 1);
    }
  }

  // ----- what a pass computes, stated without an order

  /** A single step's fate, given the input digest it should have. */
  function Resolve(world: World, runAttempt: int, step: SyncStep, r: Record, input: string): Record {
    if !r.status.Succeeded? then r
    else if !r.Certified() then CertifiedRecord(world, runAttempt, step, r, input)
    else if r.inputSha != Some(input) then InvalidatedRecord(r)
    else r
  }

  /** `after` gives each step of `before` its fate under the input digests of `after` itself. */
  ghost predicate IsResolution(world: World, runAttempt: int, before: Steps, after: Steps) {
    && after.Keys == before.Keys
    && forall p :: p in before ==> after[p] == Resolve(world, runAttempt, p, before[p], StepInputSha(world, after, p))
  }

  predicate Damaged(world: World, steps: Steps, step: SyncStep) {
    HasSucceeded(steps, step) && DefectOf(world, step, steps[step]).Some?
  }

  /** A reusable checkpoint is certified, hashes the surviving predecessors, and has no defect. */
  predicate Verifies(world: World, steps: Steps, p: SyncStep) {
    HasSucceeded(steps, p) ==>
      && steps[p].Certified()
      && steps[p].inputSha == Some(StepInputSha(world, steps, p))
      && DefectOf(world, p, steps[p]).None?
  }

  ghost predicate Sound(world: World, steps: Steps) {
    forall p: SyncStep :: Verifies(world, steps, p)
  }

  ghost predicate AgreeBelow(s: Steps, t: Steps, k: nat) {
    forall p: SyncStep :: Index(p) < k ==> (p in s <==> p in t) && (p in s && p in t ==> s[p] == t[p])
  }

  /** An input digest looks at earlier steps only. */
  lemma InputLooksBack(world: World, s: Steps, t: Steps, step: SyncStep)
    requires AgreeBelow(s, t, Index(step))
    ensures InputOf(world, s, step) == InputOf(world, t, step)
    ensures StepInputSha(world, s, step) == StepInputSha(world, t, step)
  {
    hide OutputDigest, Index;
    assert Predecessors(world, s, step) == Predecessors(world, t, step);
  }

  lemma InputIgnoresItself(world: World, steps: Steps, step: SyncStep, r: Record)
    ensures StepInputSha(world, steps[step := r], step) == StepInputSha(world, steps, step)
  {
    hide StepInputSha, Index;
    InputLooksBack(world, steps, steps[step := r], step);
  }

  lemma {:induction false} ResolutionsAgree(world: World, runAttempt: int, before: Steps, s: Steps, t: Steps, k: nat)
    requires IsResolution(world, runAttempt, before, s) && IsResolution(world, runAttempt, before, t) && k <= STEPS
    ensures AgreeBelow(s, t, k)
  {
    hide StepInputSha, Resolve;
    if k > 0 {
      ResolutionsAgree(world, runAttempt, before, s, t, k - 1);
      IndexOfStep(k - 1);
      InputLooksBack(world, s, t, StepAt(k - 1));
      forall p: SyncStep | Index(p) == k - 1 ensures p == StepAt(k - 1) {}
    }
  }

  /** Whatever resolves a state resolves it uniquely: survival does not depend on how it is computed. */
  lemma ResolutionIsUnique(world: World, runAttempt: int, before: Steps, s: Steps, t: Steps)
    requires IsResolution(world, runAttempt, before, s) && IsResolution(world, runAttempt, before, t)
    ensures s == t
  {
    hide Resolve;
    ResolutionsAgree(world, runAttempt, before, s, t, STEPS);
    forall p | p in s ensures s[p] == t[p] {
      assert Index(p) < STEPS;
    }
  }

  /** The state after resolving the first `k` steps in order. */
  function Settled(world: World, runAttempt: int, steps: Steps, k: nat): Steps
    requires k <= STEPS
  {
    if k == 0 then steps
    else
      var s := Settled(world, runAttempt, steps, k - 1);
      var p := StepAt(k - 1);
      if p !in s then s else s[p := Resolve(world, runAttempt, p, s[p], StepInputSha(world, s, p))]
  }

  ghost predicate ResolvedBelow(world: World, runAttempt: int, before: Steps, after: Steps, k: nat) {
    && after.Keys == before.Keys
    && forall p :: p in before ==>
         after[p] == if Index(p) < k then Resolve(world, runAttempt, p, before[p], StepInputSha(world, after, p)) else before[p]
  }

  lemma {:induction false} SettledResolves(world: World, runAttempt: int, steps: Steps, k: nat)
    requires k <= STEPS
    ensures ResolvedBelow(world, runAttempt, steps, Settled(world, runAttempt, steps, k), k)
  {
    hide Resolve, StepInputSha, Index, StepAt;
    if k > 0 {
      SettledResolves(world, runAttempt, steps, k - 1);
      var s := Settled(world, runAttempt, steps, k - 1);
      IndexOfStep(k - 1);
      if StepAt(k - 1) in s {
        ResolveNext(world, runAttempt, steps, s, k);
      }
    }
  }

  /** Resolving the next step extends the resolved part. */
  lemma ResolveNext(world: World, runAttempt: int, before: Steps, s: Steps, k: nat)
    requires 0 < k <= STEPS && StepAt(k - 1) in s && ResolvedBelow(world, runAttempt, before, s, k - 1)
    ensures var p := StepAt(k - 1);
      ResolvedBelow(world, runAttempt, before, s[p := Resolve(world, runAttempt, p, s[p], StepInputSha(world, s, p))], k)
  {
    hide Resolve, StepInputSha, Index, StepAt;
    IndexOfStep(k - 1);
    var next := StepAt(k - 1);
    var t := s[next := Resolve(world, runAttempt, next, s[next], StepInputSha(world, s, next))];
    forall p | p in before
      ensures t[p] == if Index(p) < k then Resolve(world, runAttempt, p, before[p], StepInputSha(world, t, p)) else before[p]
    {
      assert StepAt(Index(p)) == p;
      if Index(p) < k {
        InputLooksBack(world, s, t, p);
      }
    }
  }

  lemma SettledIsResolution(world: World, runAttempt: int, steps: Steps)
    ensures IsResolution(world, runAttempt, steps, Settled(world, runAttempt, steps, STEPS))
  {
    hide Resolve, StepInputSha;
    SettledResolves(world, runAttempt, steps, STEPS);
    forall p: SyncStep ensures Index(p) < STEPS {}
  }

  /** Verifying a finished step resolves it, and raises exactly when the step survives with a defect. */
  lemma VerifyResolves(world: World, runAttempt: int, steps: Steps, step: SyncStep)
    requires HasSucceeded(steps, step)
    ensures var r := Resolve(world, runAttempt, step, steps[step], StepInputSha(world, steps, step));
      var checked := Verify(world, runAttempt, steps, step);
      && checked.steps == steps[step := r]
      && (checked.verdict.Raised? <==> r.status.Succeeded? && DefectOf(world, step, r).Some?)
  {
    hide DefectOf, StepInputSha, CertifiedRecord, Index;
    if steps[step].Certified() {
      assert steps[step := steps[step]] == steps;
    } else {
      CertifiedMatches(world, runAttempt, steps, step);
    }
  }

  /** Certifying does not change what the step hashes, so the upgraded record matches its input. */
  lemma CertifiedMatches(world: World, runAttempt: int, steps: Steps, step: SyncStep)
    requires HasSucceeded(steps, step)
    ensures var upgraded := Certify(world, runAttempt, steps, step);
      && StepInputSha(world, upgraded, step) == StepInputSha(world, steps, step)
      && step in upgraded && upgraded[step].inputSha == Some(StepInputSha(world, upgraded, step))
      && upgraded[step].status.Succeeded?
  {
    hide StepInputSha, CertifiedRecord, Index;
    InputIgnoresItself(world, steps, step, CertifiedRecord(world, runAttempt, step, steps[step], StepInputSha(world, steps, step)));
  }

  /** A resolved step is never touched again. */
  lemma {:induction false} SettledKeeps(world: World, runAttempt: int, steps: Steps, k: nat, n: nat, p: SyncStep)
    requires Index(p) < k <= n <= STEPS && p in steps
    ensures p in Settled(world, runAttempt, steps, k) && p in Settled(world, runAttempt, steps, n)
    ensures Settled(world, runAttempt, steps, k)[p] == Settled(world, runAttempt, steps, n)[p]
    decreases n
  {
    hide Resolve, StepInputSha, Index, StepAt;
    SettledResolves(world, runAttempt, steps, k);
    SettledResolves(world, runAttempt, steps, n);
    if k < n {
      SettledKeeps(world, runAttempt, steps, k, n - 1, p);
      IndexOfStep(n - 1);
    }
  }

  ghost predicate DamagedBelow(world: World, steps: Steps, k: nat) {
    exists p: SyncStep :: Index(p) < k && Damaged(world, steps, p)
  }

  /** The checking pass is the resolution until it meets a survivor with a defect. */
  lemma {:induction false} PassFollows(world: World, runAttempt: int, steps: Steps, k: nat)
    requires k <= STEPS
    ensures var checked, settled := Pass(world, runAttempt, steps, k), Settled(world, runAttempt, steps, k);
      && (checked.verdict.Raised? <==> DamagedBelow(world, settled, k))
      && (!checked.verdict.Raised? ==> checked.steps == settled)
  {
    hide Resolve, StepInputSha, DefectOf, Verify, Index, StepAt;
    if k > 0 {
      PassFollows(world, runAttempt, steps, k - 1);
      PassStep(world, runAttempt, steps, k);
    }
  }

  lemma DamageKept(world: World, runAttempt: int, steps: Steps, k: nat, p: SyncStep)
    requires 0 < k <= STEPS && Index(p) < k - 1
    ensures Damaged(world, Settled(world, runAttempt, steps, k - 1), p) <==> Damaged(world, Settled(world, runAttempt, steps, k), p)
  {
    hide Resolve, StepInputSha, DefectOf, Index, StepAt;
    SettledResolves(world, runAttempt, steps, k - 1);
    SettledResolves(world, runAttempt, steps, k);
    if p in steps {
      SettledKeeps(world, runAttempt, steps, k - 1, k, p);
    }
  }

  lemma PassStep(world: World, runAttempt: int, steps: Steps, k: nat)
    requires 0 < k <= STEPS
    requires var checked, settled := Pass(world, runAttempt, steps, k - 1), Settled(world, runAttempt, steps, k - 1);
      && (checked.verdict.Raised? <==> DamagedBelow(world, settled, k - 1))
      && (!checked.verdict.Raised? ==> checked.steps == settled)
    ensures var checked, settled := Pass(world, runAttempt, steps, k), Settled(world, runAttempt, steps, k);
      && (checked.verdict.Raised? <==> DamagedBelow(world, settled, k))
      && (!checked.verdict.Raised? ==> checked.steps == settled)
  {
    hide Resolve, StepInputSha, DefectOf, Verify, Index, StepAt;
    var s, t := Settled(world, runAttempt, steps, k - 1), Settled(world, runAttempt, steps, k);
    var step := StepAt(k - 1);
    IndexOfStep(k - 1);
    forall p: SyncStep | Index(p) < k - 1 ensures Damaged(world, s, p) <==> Damaged(world, t, p) {
      DamageKept(world, runAttempt, steps, k, p);
    }
    forall p: SyncStep ensures StepAt(Index(p)) == p {}
    if HasSucceeded(s, step) {
      VerifyResolves(world, runAttempt, s, step);
      assert DamagedBelow(world, t, k) <==> DamagedBelow(world, s, k - 1) || Damaged(world, t, step);
    } else {
      UnfinishedStays(world, runAttempt, s, step);
      assert t == s;
      assert !Damaged(world, t, step);
    }
  }

  lemma UnfinishedStays(world: World, runAttempt: int, s: Steps, step: SyncStep)
    requires !HasSucceeded(s, step)
    ensures step in s ==> s[step := Resolve(world, runAttempt, step, s[step], StepInputSha(world, s, step))] == s
  {
    hide StepInputSha, Index, StepAt;
    if step in s {
      assert s[step := s[step]] == s;
    }
  }

  // ----- main results

  function After(world: World, runAttempt: int, steps: Steps): Checked { Pass(world, runAttempt, steps, STEPS) }

  /** A pass that does not raise leaves the one state in which every step has its fate under the digests of
      that same state; it raises exactly when a survivor of that state fails to verify. */
  lemma PassIsTheResolution(world: World, runAttempt: int, steps: Steps, resolved: Steps)
    requires IsResolution(world, runAttempt, steps, resolved)
    ensures After(world, runAttempt, steps).verdict.Raised? <==> exists p: SyncStep :: Damaged(world, resolved, p)
    ensures !After(world, runAttempt, steps).verdict.Raised? ==> After(world, runAttempt, steps).steps == resolved
  {
    hide Damaged, Pass, IsResolution;
    SettledIsResolution(world, runAttempt, steps);
    ResolutionIsUnique(world, runAttempt, steps, resolved, Settled(world, runAttempt, steps, STEPS));
    PassFollows(world, runAttempt, steps, STEPS);
    if p: SyncStep :| Damaged(world, resolved, p) {
      assert Index(p) < STEPS;
    }
  }

  lemma PassResolves(world: World, runAttempt: int, steps: Steps)
    requires !After(world, runAttempt, steps).verdict.Raised?
    ensures IsResolution(world, runAttempt, steps, After(world, runAttempt, steps).steps)
    ensures forall p: SyncStep :: !Damaged(world, After(world, runAttempt, steps).steps, p)
  {
    hide Damaged, IsResolution, After;
    SettledIsResolution(world, runAttempt, steps);
    PassIsTheResolution(world, runAttempt, steps, Settled(world, runAttempt, steps, STEPS));
  }

  /** A pass that does not raise ends in a sound state. */
  lemma PassEndsSound(world: World, runAttempt: int, steps: Steps)
    requires !After(world, runAttempt, steps).verdict.Raised?
    ensures Sound(world, After(world, runAttempt, steps).steps)
  {
    hide DefectOf, StepInputSha, After;
    PassResolves(world, runAttempt, steps);
    var t := After(world, runAttempt, steps).steps;
    forall p: SyncStep ensures Verifies(world, t, p) {
      assert !Damaged(world, t, p);
    }
  }

  /** The sound states are exactly the fixed points: a pass over a sound state raises nothing and changes
      nothing, and no other state has that property. */
  lemma SoundExactlyWhenFixed(world: World, runAttempt: int, steps: Steps)
    ensures Sound(world, steps) <==>
      (!After(world, runAttempt, steps).verdict.Raised? && After(world, runAttempt, steps).steps == steps)
  {
    hide DefectOf, StepInputSha, After, CertifiedRecord;
    if Sound(world, steps) {
      forall p | p in steps ensures steps[p] == Resolve(world, runAttempt, p, steps[p], StepInputSha(world, steps, p)) {
        assert Verifies(world, steps, p);
      }
      forall p: SyncStep ensures !Damaged(world, steps, p) {
        assert Verifies(world, steps, p);
      }
      PassIsTheResolution(world, runAttempt, steps, steps);
    } else if !After(world, runAttempt, steps).verdict.Raised? {
      PassEndsSound(world, runAttempt, steps);
    }
  }

  /** So a second pass, in whatever run, does nothing while the files stay the same. */
  lemma SecondPassChangesNothing(world: World, runAttempt: int, later: int, steps: Steps)
    requires !After(world, runAttempt, steps).verdict.Raised?
    ensures var first := After(world, runAttempt, steps).steps;
      !After(world, later, first).verdict.Raised? && After(world, later, first).steps == first
  {
    hide After, Sound;
    PassEndsSound(world, runAttempt, steps);
    SoundExactlyWhenFixed(world, later, After(world, runAttempt, steps).steps);
  }

  ghost predicate InjectiveInput(world: World) {
    forall x: Payload, y: Payload :: world.hashInput(x) == world.hashInput(y) ==> x == y
  }

  /** `r` was certified over `payload`. */
  predicate HashedFrom(world: World, r: Record, payload: Payload) {
    r.Certified() && r.inputSha == Some(world.hashInput(payload))
  }

  /** A certified step survives exactly when what it hashed is what it would hash after the pass. */
  lemma SurvivesExactlyWhen(world: World, runAttempt: int, steps: Steps, step: SyncStep, payload: Payload)
    requires InjectiveInput(world) && !After(world, runAttempt, steps).verdict.Raised?
    requires HasSucceeded(steps, step) && HashedFrom(world, steps[step], payload)
    ensures HasSucceeded(After(world, runAttempt, steps).steps, step)
      <==> payload == InputOf(world, After(world, runAttempt, steps).steps, step)
  {
    hide DefectOf, After, InputOf, CertifiedRecord;
    PassResolves(world, runAttempt, steps);
  }

  /** Invalidation cascades: a certified step whose hashed predecessors include a step that is not reusable
      after the pass is invalidated by the same pass. */
  lemma InvalidationCascades(world: World, runAttempt: int, steps: Steps, step: SyncStep, payload: Payload, lost: SyncStep)
    requires InjectiveInput(world) && !After(world, runAttempt, steps).verdict.Raised?
    requires HasSucceeded(steps, step) && HashedFrom(world, steps[step], payload)
    requires lost in payload.predecessors && !HasSucceeded(After(world, runAttempt, steps).steps, lost)
    ensures step in After(world, runAttempt, steps).steps
    ensures After(world, runAttempt, steps).steps[step] == InvalidatedRecord(steps[step])
  {
    hide DefectOf, After, CertifiedRecord;
    PassResolves(world, runAttempt, steps);
    SurvivesExactlyWhen(world, runAttempt, steps, step, payload);
  }

  /** An older checkpoint without a contract is never invalidated by the pass that upgrades it. */
  lemma UpgradedSurvives(world: World, runAttempt: int, steps: Steps, step: SyncStep)
    requires HasSucceeded(steps, step) && !steps[step].Certified() && !After(world, runAttempt, steps).verdict.Raised?
    ensures HasSucceeded(After(world, runAttempt, steps).steps, step)
    ensures var r := After(world, runAttempt, steps).steps[step];
      r.Certified() && r.inputSha == Some(StepInputSha(world, After(world, runAttempt, steps).steps, step))
  {
    hide DefectOf, After, StepInputSha;
    PassResolves(world, runAttempt, steps);
  }

  function UpgradeRecord(version: Option<string>): Record {
    Record(Succeeded, Output("{}", Listed([])), version, Some(1), Some("stale"), Some("output"), Manifest(map[]), None)
  }

  /** A finished step with a stale certificate, and a later one without a certificate. */
  const UPGRADE_STEPS: Steps := map[MarketFetch := UpgradeRecord(Some(CONTRACT_VERSION)), FactorReconcile := UpgradeRecord(None)]

  /** The state after the pass. */
  function Upgraded(world: World, runAttempt: int): Steps {
    var invalidated: Steps := map[MarketFetch := InvalidatedRecord(UpgradeRecord(Some(CONTRACT_VERSION)))];
    invalidated[FactorReconcile := CertifiedRecord(world, runAttempt, FactorReconcile, UpgradeRecord(None),
                                                   StepInputSha(world, invalidated, FactorReconcile))]
  }

  lemma UpgradeResolves(world: World, runAttempt: int)
    requires StepInputSha(world, UPGRADE_STEPS, MarketFetch) != "stale"
    ensures IsResolution(world, runAttempt, UPGRADE_STEPS, Upgraded(world, runAttempt))
  {
    hide CertifiedRecord, StepInputSha;
    var resolved := Upgraded(world, runAttempt);
    InputLooksBack(world, UPGRADE_STEPS, resolved, MarketFetch);
    var invalidated: Steps := map[MarketFetch := InvalidatedRecord(UpgradeRecord(Some(CONTRACT_VERSION)))];
    InputIgnoresItself(world, invalidated, FactorReconcile, resolved[FactorReconcile]);
  }

  /** Unless "stale" happens to be the digest of what the earlier step hashes, the pass invalidates that step and
      upgrades the later one, which stays reusable. */
  lemma UpgradedSurvivesItsPredecessor(world: World, runAttempt: int)
    requires world.hashInput(InputOf(world, UPGRADE_STEPS, MarketFetch)) != "stale"
    ensures var checked := After(world, runAttempt, UPGRADE_STEPS);
      && !checked.verdict.Raised? && HasSucceeded(checked.steps, FactorReconcile)
      && MarketFetch in checked.steps && checked.steps[MarketFetch].status == Invalidated
  {
    hide After, Pass;
    var resolved := Upgraded(world, runAttempt);
    UpgradeResolves(world, runAttempt);
    forall p: SyncStep ensures !Damaged(world, resolved, p) {}
    PassIsTheResolution(world, runAttempt, UPGRADE_STEPS, resolved);
  }

  /** The only way a step just finished can fail to verify: a raw promotion whose output does not describe
      the partitions that are stored. */
  predicate PromotionHolds(world: World, step: SyncStep, output: Output) {
    step == RawPromote ==> output.raw.NotAList? || (output.raw.Listed? && PartitionsIntact(world, output.raw.changes))
  }

  /** Some step after `step` is finished. */
  ghost predicate LaterFinished(steps: Steps, step: SyncStep) {
    exists p: SyncStep :: Index(p) > Index(step) && HasSucceeded(steps, p)
  }

  /** The step was finished before, with an output of the same digest. */
  predicate SameDigest(world: World, steps: Steps, step: SyncStep, output: Output) {
    HasSucceeded(steps, step) && world.hashOutput(steps[step].output) == world.hashOutput(output)
  }

  /** Finishing a step keeps a sound state sound exactly when the new output agrees with the stored partitions
      it names and every later finished step would hash the same input: none is finished, or the step was
      finished before with an output of the same digest. */
  lemma FinishKeepsSoundExactlyWhen(world: World, runAttempt: int, steps: Steps, step: SyncStep, output: Output)
    requires Sound(world, steps) && (InjectiveInput(world) || !LaterFinished(steps, step))
    ensures Sound(world, Finish(world, runAttempt, steps, step, output))
      <==> PromotionHolds(world, step, output) && (LaterFinished(steps, step) ==> SameDigest(world, steps, step, output))
  {
    hide StepInputSha, PromotionHolds, DefectOf, Finish, Index, SameDigest, KeepsDigest, OutputDigest, Verifies, InjectiveInput;
    var t := Finish(world, runAttempt, steps, step, output);
    FinishedVerifies(world, runAttempt, steps, step, output);
    FinishReplaces(world, runAttempt, steps, step, output);
    DigestKeptExactlyWhen(world, steps, step, output, t[step]);
    forall p: SyncStep | p != step
      ensures Verifies(world, t, p) <==> (Index(p) > Index(step) && HasSucceeded(steps, p) ==> SameDigest(world, steps, step, output))
    {
      assert Verifies(world, steps, p) && StepAt(Index(p)) == p && StepAt(Index(step)) == step;
      OtherVerifiesExactlyWhen(world, steps, step, t[step], p);
    }
    if PromotionHolds(world, step, output) && (LaterFinished(steps, step) ==> SameDigest(world, steps, step, output)) {
      forall p: SyncStep ensures Verifies(world, t, p) {}
    }
  }

  lemma FinishedVerifies(world: World, runAttempt: int, steps: Steps, step: SyncStep, output: Output)
    ensures Verifies(world, Finish(world, runAttempt, steps, step, output), step) <==> PromotionHolds(world, step, output)
  {
    hide StepInputSha, DefectOf, Finish, PromotionHolds;
    FinishedRecord(world, runAttempt, steps, step, output);
  }

  /** Another step after the record of `step` has been replaced. */
  lemma OtherVerifiesExactlyWhen(world: World, steps: Steps, step: SyncStep, r: Record, p: SyncStep)
    requires Verifies(world, steps, p) && p != step && r.status.Succeeded?
    requires Index(p) > Index(step) && HasSucceeded(steps, p) ==> InjectiveInput(world)
    ensures Verifies(world, steps[step := r], p)
      <==> (Index(p) > Index(step) && HasSucceeded(steps, p) ==> KeepsDigest(world, steps, step, r))
  {
    hide DefectOf, Index, KeepsDigest, InjectiveInput, StepInputSha;
    var t := steps[step := r];
    assert HasSucceeded(t, p) <==> HasSucceeded(steps, p);
    assert p in steps ==> t[p] == steps[p];
    if HasSucceeded(steps, p) && Index(p) > Index(step) {
      LaterInputExactlyWhen(world, steps, step, r, p);
      SameShaExactlyWhen(world, t, steps, p);
    } else if HasSucceeded(steps, p) {
      EarlierInputStays(world, steps, step, r, p);
    }
  }

  lemma EarlierInputStays(world: World, steps: Steps, step: SyncStep, r: Record, p: SyncStep)
    requires Index(p) <= Index(step)
    ensures StepInputSha(world, steps[step := r], p) == StepInputSha(world, steps, p)
  {
    hide Index, StepInputSha;
    InputLooksBack(world, steps, steps[step := r], p);
  }

  lemma SameShaExactlyWhen(world: World, s: Steps, t: Steps, p: SyncStep)
    requires InjectiveInput(world)
    ensures StepInputSha(world, s, p) == StepInputSha(world, t, p) <==> InputOf(world, s, p) == InputOf(world, t, p)
  {
    hide InputOf;
  }

  /** The replaced record was a finished one with the same output digest. */
  predicate KeepsDigest(world: World, steps: Steps, step: SyncStep, r: Record) {
    HasSucceeded(steps, step) && OutputDigest(world, steps[step]) == OutputDigest(world, r)
  }

  /** A later step would hash what it has hashed exactly when the digest is kept. */
  lemma LaterInputExactlyWhen(world: World, steps: Steps, step: SyncStep, r: Record, p: SyncStep)
    requires Index(p) > Index(step) && r.status.Succeeded?
    ensures InputOf(world, steps[step := r], p) == InputOf(world, steps, p) <==> KeepsDigest(world, steps, step, r)
  {
    hide Index, OutputDigest, Predecessors;
    var t := steps[step := r];
    var before, after := Predecessors(world, steps, p), Predecessors(world, t, p);
    PredecessorAt(world, steps, p, step);
    PredecessorAt(world, t, p, step);
    if KeepsDigest(world, steps, step, r) {
      forall q: SyncStep ensures (q in before <==> q in after) && (q in before ==> before[q] == after[q]) {
        PredecessorAt(world, steps, p, q);
        PredecessorAt(world, t, p, q);
      }
      assert before == after;
    }
  }

  lemma PredecessorAt(world: World, steps: Steps, p: SyncStep, q: SyncStep)
    ensures q in Predecessors(world, steps, p) <==> Index(q) < Index(p) && HasSucceeded(steps, q)
    ensures q in Predecessors(world, steps, p) ==> q in steps && Predecessors(world, steps, p)[q] == OutputDigest(world, steps[q])
  {
    hide Index, OutputDigest;
  }

  lemma FinishReplaces(world: World, runAttempt: int, steps: Steps, step: SyncStep, output: Output)
    ensures var t := Finish(world, runAttempt, steps, step, output);
      && step in t && t == steps[step := t[step]] && t[step].status.Succeeded?
      && OutputDigest(world, t[step]) == world.hashOutput(output)
  {
    hide CheckpointArtifacts, StepInputSha;
    var blank := Record(Succeeded, output, None, None, None, None, Manifest(map[]), None);
    var certified := CertifiedRecord(world, runAttempt, step, blank, StepInputSha(world, steps[step := blank], step));
    assert steps[step := blank][step := certified] == steps[step := certified];
  }

  lemma DigestKeptExactlyWhen(world: World, steps: Steps, step: SyncStep, output: Output, r: Record)
    requires Sound(world, steps) && OutputDigest(world, r) == world.hashOutput(output)
    ensures KeepsDigest(world, steps, step, r) <==> SameDigest(world, steps, step, output)
  {
    hide OutputDigest;
    if HasSucceeded(steps, step) {
      StoredDigest(world, steps, step);
    }
  }

  lemma StoredDigest(world: World, steps: Steps, step: SyncStep)
    requires Sound(world, steps) && HasSucceeded(steps, step)
    ensures OutputDigest(world, steps[step]) == world.hashOutput(steps[step].output)
  {
    hide StepInputSha;
    assert Verifies(world, steps, step);
  }

  lemma FinishedRecord(world: World, runAttempt: int, steps: Steps, step: SyncStep, output: Output)
    ensures var t := Finish(world, runAttempt, steps, step, output);
      && HasSucceeded(t, step) && t[step].Certified()
      && t[step].inputSha == Some(StepInputSha(world, t, step))
      && (DefectOf(world, step, t[step]).None? <==> PromotionHolds(world, step, output))
  {
    hide PartitionsIntact, Index;
    var t := Finish(world, runAttempt, steps, step, output);
    hide StepInputSha, CheckpointArtifacts;
    CertifiedMatches(world, runAttempt,
                     steps[step := Record(Succeeded, output, None, None, None, None, Manifest(map[]), None)], step);
    ArtifactsIntactWhenTaken(world, step);
  }

  lemma ArtifactsIntactWhenTaken(world: World, step: SyncStep)
    ensures ArtifactsIntact(world, CheckpointArtifacts(world, step))
  {}
}
