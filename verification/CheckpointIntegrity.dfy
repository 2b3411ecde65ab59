/** What a reusable checkpoint guarantees about outputs, files, partitions and inputs, stated on the stored
    digests alone (data/audited_daily_sync.py). */
module CheckpointIntegrity {
  import opened Basics
  import opened Checkpoints

  /** The record describes what is there: its output has the stored digest, every file of its manifest exists with
      the stored digest, and every complete change of a raw promotion names a partition with the expected content. */
  ghost predicate Intact(world: World, step: SyncStep, r: Record) {
    && r.outputSha == Some(world.hashOutput(r.output))
    && r.artifacts.Manifest?
    && (forall path :: path in r.artifacts.digests ==> path in world.files && world.files[path] == r.artifacts.digests[path])
    && (step == RawPromote ==> r.output.raw.NotAList? || PromotedAsStored(world, r.output.raw))
  }

  ghost predicate PromotedAsStored(world: World, raw: RawChanges) {
    && raw.Listed?
    && forall c :: c in raw.changes && c.dataset != "" && c.tradeDate != "" && c.expected != "" ==>
         world.partitionHash(c.dataset, c.tradeDate) == c.expected
  }

  lemma NoDefectExactlyWhen(world: World, step: SyncStep, r: Record)
    ensures DefectOf(world, step, r).None? <==> Intact(world, step, r)
  {
    if r.output.raw.Listed? {
      PartitionsOfChanges(world, r.output.raw);
    }
  }

  lemma PartitionsOfChanges(world: World, raw: RawChanges)
    requires raw.Listed?
    ensures PartitionsIntact(world, raw.changes) <==> PromotedAsStored(world, raw)
  {
    var changes := raw.changes;
    if PartitionsIntact(world, changes) {
      forall c | c in changes && c.dataset != "" && c.tradeDate != "" && c.expected != ""
        ensures world.partitionHash(c.dataset, c.tradeDate) == c.expected
      {
        var i :| 0 <= i < |changes| && changes[i] == c;
        assert changes[i].Complete();
      }
    }
    if PromotedAsStored(world, raw) {
      forall i | 0 <= i < |changes| && changes[i].Complete()
        ensures world.partitionHash(changes[i].dataset, changes[i].tradeDate) == changes[i].expected
      {
        assert changes[i] in changes;
      }
    }
  }

  /** After a pass that does not raise every finished step is intact, and certified over the plan, its own name and
      the output digests of the earlier steps that are finished. */
  lemma QuietPassIsIntact(world: World, runAttempt: int, steps: Steps, step: SyncStep)
    requires !After(world, runAttempt, steps).verdict.Raised? && HasSucceeded(After(world, runAttempt, steps).steps, step)
    ensures var after := After(world, runAttempt, steps).steps;
      && Intact(world, step, after[step])
      && after[step].contractVersion == Some("1.0")
      && after[step].inputSha == Some(world.hashInput(InputOf(world, after, step)))
  {
    hide DefectOf, After, Intact, InputOf;
    PassEndsSound(world, runAttempt, steps);
    assert Verifies(world, After(world, runAttempt, steps).steps, step);
    NoDefectExactlyWhen(world, step, After(world, runAttempt, steps).steps[step]);
  }

  /** A pass raises exactly when a step that survives it is not intact. */
  lemma PassRaisesExactlyWhen(world: World, runAttempt: int, steps: Steps, resolved: Steps)
    requires IsResolution(world, runAttempt, steps, resolved)
    ensures After(world, runAttempt, steps).verdict.Raised?
       <==> exists p: SyncStep :: HasSucceeded(resolved, p) && !Intact(world, p, resolved[p])
  {
    hide DefectOf, After, Intact, IsResolution;
    PassIsTheResolution(world, runAttempt, steps, resolved);
    forall p: SyncStep | p in resolved ensures Damaged(world, resolved, p) <==> HasSucceeded(resolved, p) && !Intact(world, p, resolved[p]) {
      NoDefectExactlyWhen(world, p, resolved[p]);
    }
  }

  /** A certified step whose record is not intact makes the pass raise, unless its input has changed. */
  lemma DamageIsDetected(world: World, runAttempt: int, steps: Steps, step: SyncStep)
    requires HasSucceeded(steps, step) && steps[step].contractVersion == Some("1.0") && !Intact(world, step, steps[step])
    ensures var checked := After(world, runAttempt, steps);
      checked.verdict.Raised? || !HasSucceeded(checked.steps, step)
  {
    hide DefectOf, After, Intact, InputOf;
    if !After(world, runAttempt, steps).verdict.Raised? && HasSucceeded(After(world, runAttempt, steps).steps, step) {
      QuietPassIsIntact(world, runAttempt, steps, step);
      PassResolves(world, runAttempt, steps);
    }
  }

  /** An invalidated step keeps what it recorded, and says why it no longer counts. */
  lemma InvalidatedKeepsEvidence(world: World, runAttempt: int, steps: Steps, step: SyncStep)
    requires HasSucceeded(steps, step) && steps[step].contractVersion == Some("1.0")
    requires !After(world, runAttempt, steps).verdict.Raised? && !HasSucceeded(After(world, runAttempt, steps).steps, step)
    ensures step in After(world, runAttempt, steps).steps
    ensures var r := After(world, runAttempt, steps).steps[step];
      && r.status == Invalidated && r.invalidatedReason == Some("input_sha256_changed")
      && r.output == steps[step].output && r.inputSha == steps[step].inputSha && r.outputSha == steps[step].outputSha
      && r.artifacts == steps[step].artifacts && r.attempt == steps[step].attempt && r.contractVersion == steps[step].contractVersion
  {
    hide DefectOf, After, InputOf;
    PassResolves(world, runAttempt, steps);
  }

  /** Upgrading keeps the output and the attempt an older checkpoint recorded. */
  lemma UpgradeKeepsOutput(world: World, runAttempt: int, steps: Steps, step: SyncStep)
    requires HasSucceeded(steps, step) && steps[step].contractVersion != Some("1.0") && !After(world, runAttempt, steps).verdict.Raised?
    ensures HasSucceeded(After(world, runAttempt, steps).steps, step)
    ensures var r := After(world, runAttempt, steps).steps[step];
      && r.output == steps[step].output
      && (steps[step].attempt.Some? && steps[step].attempt.value != 0 ==> r.attempt == steps[step].attempt)
  {
    hide DefectOf, After, InputOf;
    PassResolves(world, runAttempt, steps);
  }

  // ----- what a finished step covers

  /** The files a step vouches for. */
  predicate Covers(world: World, step: SyncStep, path: string) {
    var roots := world.rootsOf(path);
    match step
    case MarketFetch => StageMarket in roots || PlanQuality in roots
    case FactorReconcile => FactorHistory in roots || StageMarket in roots
    case DividendFetch => StageDividend in roots
    case RawValidate => RawStoreReport in roots
    case QlibPublish => ActiveManifest in roots
    case _ => false
  }

  lemma CoversExactlyItsRoots(world: World, step: SyncStep, path: string)
    ensures Covers(world, step, path) <==> world.rootsOf(path) * Roots(step) != {}
  {
    var roots := world.rootsOf(path);
    forall root | root in roots && root in Roots(step) ensures root in roots * Roots(step) {}
    if roots * Roots(step) != {} {
      var root :| root in roots * Roots(step);
    }
  }

  /** Finishing a step records the digest of its output, of what it was computed from, and of exactly the files it
      covers. */
  lemma FinishRecordsEverything(world: World, runAttempt: int, steps: Steps, step: SyncStep, output: Output)
    ensures var after := Finish(world, runAttempt, steps, step, output);
      && HasSucceeded(after, step) && after[step].output == output && after[step].contractVersion == Some("1.0")
      && after[step].outputSha == Some(world.hashOutput(output))
      && after[step].inputSha == Some(world.hashInput(InputOf(world, after, step)))
      && after[step].attempt == Some(if runAttempt != 0 then runAttempt else 1)
      && after[step].artifacts.Manifest?
      && (forall path :: path in after[step].artifacts.digests <==> path in world.files && Covers(world, step, path))
      && (forall path :: path in after[step].artifacts.digests ==> after[step].artifacts.digests[path] == world.files[path])
  {
    hide Covers, Roots, Index, InputOf;
    FinishedRecord(world, runAttempt, steps, step, output);
    forall path ensures Covers(world, step, path) <==> world.rootsOf(path) * Roots(step) != {} {
      CoversExactlyItsRoots(world, step, path);
    }
  }

  /** A file that a finished step covers and that has since changed or gone makes the next pass raise, unless the
      step's input has changed too and the step is invalidated. */
  lemma ChangedFileIsDetected(world: World, runAttempt: int, before: Steps, step: SyncStep, output: Output,
                              files: map<string, string>, later: int, steps: Steps, path: string)
    requires step in steps && step in Finish(world, runAttempt, before, step, output)
    requires steps[step] == Finish(world, runAttempt, before, step, output)[step]
    requires path in world.files && Covers(world, step, path) && !(path in files && files[path] == world.files[path])
    ensures var checked := After(world.(files := files), later, steps);
      checked.verdict.Raised? || !HasSucceeded(checked.steps, step)
  {
    hide After, Finish, Covers, InputOf;
    FinishRecordsEverything(world, runAttempt, before, step, output);
    DamageIsDetected(world.(files := files), later, steps, step);
  }

  // ----- what an input digest covers

  /** The output digest that later steps see. */
  function SeenDigest(world: World, steps: Steps, step: SyncStep): Option<string> {
    if !HasSucceeded(steps, step) then None
    else if steps[step].outputSha.Some? && steps[step].outputSha.value != "" then steps[step].outputSha
    else Some(world.hashOutput(steps[step].output))
  }

  /** The steps of the sync that come before a step. */
  function Earlier(step: SyncStep): set<SyncStep> {
    match step
    case MarketFetch => {}
    case FactorReconcile => {MarketFetch}
    case DividendFetch => {MarketFetch, FactorReconcile}
    case RawPromote => {MarketFetch, FactorReconcile, DividendFetch}
    case RawValidate => {MarketFetch, FactorReconcile, DividendFetch, RawPromote}
    case ExtendedSync => {MarketFetch, FactorReconcile, DividendFetch, RawPromote, RawValidate}
    case PitRefresh => {MarketFetch, FactorReconcile, DividendFetch, RawPromote, RawValidate, ExtendedSync}
    case MetadataRefresh => {MarketFetch, FactorReconcile, DividendFetch, RawPromote, RawValidate, ExtendedSync, PitRefresh}
    case FreshnessGate =>
      {MarketFetch, FactorReconcile, DividendFetch, RawPromote, RawValidate, ExtendedSync, PitRefresh, MetadataRefresh}
    case QlibPublish =>
      {MarketFetch, FactorReconcile, DividendFetch, RawPromote, RawValidate, ExtendedSync, PitRefresh, MetadataRefresh, FreshnessGate}
  }

  lemma EarlierExactlyWhen(x: SyncStep, step: SyncStep)
    ensures x in Earlier(step) <==> Index(x) < Index(step)
  {}

  /** Two steps hash the same input exactly when they are the same step of the same plan and see the same earlier
      steps finished, with the same output digests. */
  lemma SameInputExactlyWhen(world: World, other: World, s: Steps, t: Steps, p: SyncStep, q: SyncStep)
    requires InjectiveInput(world) && other.hashInput == world.hashInput && other.hashOutput == world.hashOutput
    ensures StepInputSha(world, s, p) == StepInputSha(other, t, q)
       <==> world.plan == other.plan && p == q
            && forall x :: x in Earlier(p) ==> SeenDigest(world, s, x) == SeenDigest(world, t, x)
  {
    hide Index, OutputDigest, Predecessors, Earlier;
    forall x: SyncStep ensures x in Earlier(p) <==> Index(x) < Index(p) {
      EarlierExactlyWhen(x, p);
    }
    assert StepInputSha(world, s, p) == StepInputSha(other, t, q) <==> InputOf(world, s, p) == InputOf(other, t, q);
    if p == q {
      SamePredecessorsExactlyWhen(world, other, s, t, p);
    }
  }

  lemma SamePredecessorsExactlyWhen(world: World, other: World, s: Steps, t: Steps, p: SyncStep)
    requires other.hashOutput == world.hashOutput
    ensures Predecessors(world, s, p) == Predecessors(other, t, p)
       <==> forall x: SyncStep :: Index(x) < Index(p) ==> SeenDigest(world, s, x) == SeenDigest(world, t, x)
  {
    hide Index, Predecessors;
    var a, b := Predecessors(world, s, p), Predecessors(other, t, p);
    forall x: SyncStep
      ensures x in a <==> Index(x) < Index(p) && HasSucceeded(s, x)
      ensures x in b <==> Index(x) < Index(p) && HasSucceeded(t, x)
      ensures x in a ==> Some(a[x]) == SeenDigest(world, s, x)
      ensures x in b ==> Some(b[x]) == SeenDigest(world, t, x)
    {
      PredecessorAt(world, s, p, x);
      PredecessorAt(other, t, p, x);
    }
    if forall x: SyncStep :: Index(x) < Index(p) ==> SeenDigest(world, s, x) == SeenDigest(world, t, x) {
      assert forall x: SyncStep :: x in a <==> x in b;
      assert a == b;
    }
  }

  /** Under another plan a pass that does not raise leaves no certified step reusable. */
  lemma PlanChangeInvalidates(world: World, plan: string, runAttempt: int, before: Steps, steps: Steps, step: SyncStep)
    requires InjectiveInput(world) && plan != world.plan
    requires HasSucceeded(steps, step) && HashedFrom(world, steps[step], InputOf(world, before, step))
    requires !After(world.(plan := plan), runAttempt, steps).verdict.Raised?
    ensures !HasSucceeded(After(world.(plan := plan), runAttempt, steps).steps, step)
  {
    hide After, Predecessors;
    var other := world.(plan := plan);
    assert HashedFrom(other, steps[step], InputOf(world, before, step));
    assert InjectiveInput(other);
    SurvivesExactlyWhen(other, runAttempt, steps, step, InputOf(world, before, step));
  }
}
