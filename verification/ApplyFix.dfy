// worker/workflows/apply_fix.go: the guarded run that ends in publishing a pull
// request.
module ApplyFix {
  import opened Prelude
  import opened UnifiedDiff
  import opened Quantity
  import opened SafetyFloor
  import opened SafetyLaws
  import Gate
  import Validators
  import Operators

  // ------------------------------------------------- the strategy gate

  datatype Environment = Prod | Staging | Dev | UnknownEnv
  datatype Class = Karpenter | Autoscaler | Static
  datatype Confidence = High | Medium | Low | OtherConfidence

  function Rank(c: Confidence): nat {
    match c
    case High => 3
    case Medium => 2
    case Low => 1
    case OtherConfidence => 0
  }

  datatype Sizing = Sizing(minConfidence: Confidence, maxReplicaReduction: int, maxAggressiveness: int)

  function BaseSizing(env: Environment): Sizing {
    match env
    case Dev => Sizing(Low, 100, 0)
    case Staging => Sizing(Medium, 2, 0)
    case _ => Sizing(High, 0, 0)
  }

  function ForClass(env: Environment, class_: Class): Sizing {
    var s := BaseSizing(env).(maxAggressiveness := if class_ == Static then 50 else 100);
    if class_ == Static
    then s.(minConfidence := if s.minConfidence == Low then Medium else s.minConfidence, maxReplicaReduction := 0)
    else s
  }

  function EffectiveReplicaCap(s: Sizing): int {
    if s.maxAggressiveness <= 0 || s.maxReplicaReduction <= 0 then 0
    else if s.maxAggressiveness >= 100 then s.maxReplicaReduction
    else s.maxReplicaReduction * s.maxAggressiveness / 100
  }

  predicate ReplicaCutAllowed(s: Sizing, reduction: int) {
    reduction <= 0 || reduction <= EffectiveReplicaCap(s)
  }

  // ------------------------------------------------- the workflow's inputs

  // The parts of a finding the workflow reads. An empty confidence is None.
  datatype Finding = Finding(detectorID: string, workload: string, title: string, monthlyUSDCents: int,
                             confidence: Option<Confidence>)

  // Optional payload fields are None when empty.
  datatype Payload = Payload(
    repoOwner: string, repoName: string, baseBranch: string, chartYAML: string, model: string,
    finding: Finding, applyFixID: string, owners: seq<Operators.OwnerRef>, signals: Validators.Signals,
    proposedCPUMilli: int, proposedMemoryB: int, proposedReplicas: int,
    environment: Option<Environment>, class_: Option<Class>)

  datatype FixRequest = FixRequest(finding: Finding, chartYAML: string, workload: string, model: string)

  datatype FixResponse = FixResponse(explanation: string, unifiedDiff: string)

  datatype PullRequest = PullRequest(
    repoOwner: string, repoName: string, headBranch: string, baseBranch: string, title: string, body: string,
    unifiedDiff: string, applyFixID: string)

  // Collaborators outside this model, as the answers they give: reading payloads
  // and values files, the language model, the comment renderer, YAML.
  datatype World = World(
    decode: string -> Option<Payload>,
    parseValues: string -> Option<seq<string>>,
    render: (Payload, FixResponse) -> Option<string>,
    yaml: Gate.Parser)

  // The wiring of the workflow; None is an unset (nil) field. A tenant settings
  // source either answers or errs.
  datatype Workflow = Workflow(
    composer: Option<FixRequest -> Option<FixResponse>>,
    gate: Option<Gate.Pipeline>,
    validator: Option<seq<Validators.Named>>,
    skepticMode: bool,
    tenantSettings: Option<Option<bool>>,
    ownerResolve: Option<Operators.Resolver>)

  // GatePanicked stands for a run that does not return, because a stage of the gate
  // panics.
  datatype Error =
    | BadPayload | NoComposer | NoGate | NoPublisher | SkepticNeedsValidator | BadChart | OperatorOwned
    | LowConfidence | ReplicaCut | ComposeFailed | GateBlocked | GatePanicked | SkepticStage | ValidatorErred | Rejected
    | SkepticWarn | RenderFailed | PublishFailed

  class Publisher {
    var published: seq<PullRequest>
    const up: bool

    constructor (up: bool)
      ensures published == [] && this.up == up
    {
      published := [];
      this.up := up;
    }

    method Publish(pr: PullRequest) returns (ok: bool)
      modifies this
      ensures published == old(published) + [pr] && ok == up
    {
      published := published + [pr];
      ok := up;
    }
  }

  // ------------------------------------------------- what the workflow decides

  function Skeptic(w: Workflow): bool {
    if w.tenantSettings.Some? && w.tenantSettings.value.Some? then w.tenantSettings.value.value else w.skepticMode
  }

  function Primary(workloads: seq<string>, want: string): string {
    if want in workloads then want else if workloads != [] then workloads[0] else want
  }

  method PrimaryWorkload(workloads: seq<string>, want: string) returns (r: string)
    ensures r == Primary(workloads, want)
  {
    for i := 0 to |workloads|
      invariant want !in workloads[..i]
    {
      if workloads[i] == want {
        return workloads[i];
      }
      assert workloads[..i + 1] == workloads[..i] + [workloads[i]];
    }
    assert workloads[..|workloads|] == workloads;
    return if |workloads| > 0 then workloads[0] else want;
  }

  function GateCandidate(p: Payload, primary: string, diff: string): Gate.Candidate {
    Gate.Candidate(p.applyFixID, p.chartYAML, diff, primary)
  }

  function Proposal(p: Payload, primary: string): Validators.Candidate {
    Validators.Candidate(primary, p.finding.detectorID, p.finding.title, p.proposedCPUMilli, p.proposedMemoryB,
                         p.proposedReplicas, p.finding.monthlyUSDCents, p.signals)
  }

  function RequestFor(p: Payload, resp: FixResponse, body: string): PullRequest {
    PullRequest(p.repoOwner, p.repoName, "optiqor/apply-fix/" + p.applyFixID, p.baseBranch,
                "optiqor(" + p.finding.workload + "): " + p.finding.title, body, resp.unifiedDiff, p.applyFixID)
  }

  // The owner chain, when it was checked, is direct.
  ghost predicate DirectlyOwned(w: Workflow, p: Payload) {
    w.ownerResolve.Some? && p.owners != [] ==>
      exists first, n ::
        Operators.Controls(p.owners, Some(first)) && 0 <= n < Operators.MAX_DEPTH &&
        Operators.DecidesAt(w.ownerResolve.value, first, n, Operators.DIRECT)
  }

  predicate ConfidenceOk(p: Payload) {
    p.environment.Some? && p.finding.confidence.Some? ==>
      Rank(p.finding.confidence.value) >=
      Rank(ForClass(p.environment.value, if p.class_.Some? then p.class_.value else Karpenter).minConfidence)
  }

  predicate CutOk(p: Payload) {
    p.environment.Some? && p.proposedReplicas > 0 && p.signals.hpa.Some? &&
    p.signals.hpa.value.currentReps > p.proposedReplicas ==>
      ReplicaCutAllowed(ForClass(p.environment.value, if p.class_.Some? then p.class_.value else Karpenter),
                        p.signals.hpa.value.currentReps - p.proposedReplicas)
  }

  ghost predicate GatePassed(w: Workflow, world: World, c: Gate.Candidate)
    requires w.gate.Some?
  {
    exists stages ::
      Gate.Ran(w.gate.value, c, world.yaml, stages) && Gate.AllAllowed(w.gate.value, stages) &&
      (Skeptic(w) ==> AllPassed(stages))
  }

  ghost predicate AllPassed(stages: seq<Gate.StageResult>) {
    forall i | 0 <= i < |stages| :: stages[i].status == Gate.Passed
  }

  ghost predicate Validated(w: Workflow, c: Validators.Candidate) {
    w.validator.Some? ==>
      var verdicts := Validators.Verdicts(w.validator.value, c);
      verdicts.Ok? && Validators.FirstHard(verdicts.value).None? &&
      (Skeptic(w) ==> forall v | v in verdicts.value :: v.severity != Validators.Warn)
  }

  // Every guard the workflow passes before it publishes pr.
  ghost predicate Cleared(w: Workflow, world: World, p: Payload, pr: PullRequest) {
    w.composer.Some? && w.gate.Some? && (Skeptic(w) ==> w.validator.Some?) &&
    var workloads := world.parseValues(p.chartYAML);
    workloads.Some? &&
    var primary := Primary(workloads.value, p.finding.workload);
    var resp := w.composer.value(FixRequest(p.finding, p.chartYAML, primary, p.model));
    resp.Some? && DirectlyOwned(w, p) && ConfidenceOk(p) && CutOk(p) &&
    GatePassed(w, world, GateCandidate(p, primary, resp.value.unifiedDiff)) &&
    Validated(w, Proposal(p, primary)) &&
    world.render(p, resp.value).Some? && pr == RequestFor(p, resp.value, world.render(p, resp.value).value)
  }

  // Why a run ended with an error. Apart from the payload and the wiring, each
  // reason is the failure of one guard of Cleared.
  ghost predicate Blocks(e: Error, w: Workflow, world: World, p: Payload, up: bool) {
    var skeptic := Skeptic(w);
    var primary := if world.parseValues(p.chartYAML).Some?
                   then Primary(world.parseValues(p.chartYAML).value, p.finding.workload) else "";
    var resp := if w.composer.Some?
                then w.composer.value(FixRequest(p.finding, p.chartYAML, primary, p.model)) else None;
    var verdicts := if w.validator.Some? then Validators.Verdicts(w.validator.value, Proposal(p, primary)) else Ok([]);
    match e
    case BadPayload => false
    case NoPublisher => false
    case NoComposer => w.composer.None?
    case NoGate => w.gate.None?
    case SkepticNeedsValidator => skeptic && w.validator.None?
    case BadChart => world.parseValues(p.chartYAML).None?
    case OperatorOwned => NotDirect(w, p)
    case LowConfidence => !ConfidenceOk(p)
    case ReplicaCut => !CutOk(p)
    case ComposeFailed => resp.None?
    case GateBlocked => resp.Some? && GateRan(w, world, GateCandidate(p, primary, resp.value.unifiedDiff), false)
    case GatePanicked =>
      resp.Some? && GateCrashed(w, world, GateCandidate(p, primary, resp.value.unifiedDiff))
    case SkepticStage =>
      skeptic && resp.Some? && GateRan(w, world, GateCandidate(p, primary, resp.value.unifiedDiff), true)
    case ValidatorErred => verdicts.Err?
    case Rejected => verdicts.Ok? && Validators.FirstHard(verdicts.value).Some?
    case SkepticWarn => skeptic && verdicts.Ok? && exists v :: v in verdicts.value && v.severity == Validators.Warn
    case RenderFailed => resp.Some? && world.render(p, resp.value).None?
    case PublishFailed => !up
  }

  // The owners were checked and the bounded walk did not come out direct.
  ghost predicate NotDirect(w: Workflow, p: Payload) {
    w.ownerResolve.Some? && p.owners != [] &&
    exists first, c: Operators.Classification ::
      Operators.Controls(p.owners, Some(first)) && !c.direct && Operators.Answers(w.ownerResolve.value, first, c)
  }

  // The gate ran and was blocked, or ran through with a stage that did not pass.
  ghost predicate GateRan(w: Workflow, world: World, c: Gate.Candidate, through: bool) {
    w.gate.Some? &&
    exists stages ::
      Gate.Ran(w.gate.value, c, world.yaml, stages) &&
      if through then Gate.AllAllowed(w.gate.value, stages) && !AllPassed(stages)
      else !Gate.AllAllowed(w.gate.value, stages)
  }

  // The gate ran into a stage that panicked.
  ghost predicate GateCrashed(w: Workflow, world: World, c: Gate.Candidate) {
    w.gate.Some? &&
    exists stages: seq<Gate.StageResult> ::
      Gate.Ran(w.gate.value, c, world.yaml, stages) && stages != [] &&
      stages[|stages| - 1].status == Gate.Panicked
  }

  // ------------------------------------------------- the run

  method CheckOwners(w: Workflow, p: Payload, primary: string) returns (ok: bool)
    ensures ok ==> DirectlyOwned(w, p)
    ensures !ok ==> NotDirect(w, p)
  {
    if w.ownerResolve.None? || |p.owners| == 0 {
      return true;
    }
    var c := Operators.Classify(Operators.Workload("", "Deployment", primary, p.owners), w.ownerResolve.value);
    ghost var first :| Operators.Controls(p.owners, Some(first)) && Operators.Answers(w.ownerResolve.value, first, c);
    if !c.direct {
      return false;
    }
    ghost var n :| 0 <= n < Operators.MAX_DEPTH && Operators.DecidesAt(w.ownerResolve.value, first, n, c);
    assert c == Operators.DIRECT;
    return true;
  }

  method CheckGate(w: Workflow, world: World, c: Gate.Candidate) returns (r: Result<(), Error>)
    requires w.gate.Some? && Gate.Sane(world.yaml)
    ensures r.Ok? ==> GatePassed(w, world, c)
    ensures r == Err(GateBlocked) ==> GateRan(w, world, c, false)
    ensures r == Err(GatePanicked) ==> GateCrashed(w, world, c)
    ensures r == Err(SkepticStage) ==> Skeptic(w) && GateRan(w, world, c, true)
    ensures r.Err? ==> r.error == GateBlocked || r.error == GatePanicked || r.error == SkepticStage
  {
    var stages, blocked := Gate.Run(w.gate.value, c, world.yaml);
    if blocked.Some? {
      return Err(if blocked.value.status == Gate.Panicked then GatePanicked else GateBlocked);
    }
    if Skeptic(w) {
      for i := 0 to |stages|
        invariant forall j | 0 <= j < i :: stages[j].status == Gate.Passed
      {
        if stages[i].status != Gate.Passed {
          return Err(SkepticStage);
        }
      }
    }
    return Ok(());
  }

  method CheckValidator(w: Workflow, c: Validators.Candidate) returns (r: Result<(), Error>)
    ensures r.Ok? <==> Validated(w, c)
    ensures r.Err? ==>
              w.validator.Some? &&
              var verdicts := Validators.Verdicts(w.validator.value, c);
              match r.error
              case ValidatorErred => verdicts.Err?
              case Rejected => verdicts.Ok? && Validators.FirstHard(verdicts.value).Some?
              case SkepticWarn =>
                Skeptic(w) && verdicts.Ok? && exists v :: v in verdicts.value && v.severity == Validators.Warn
              case _ => false
  {
    if w.validator.None? {
      return Ok(());
    }
    var res := Validators.Run(w.validator.value, c);
    if res.Err? {
      return Err(ValidatorErred);
    }
    if res.value.rejected.Some? {
      return Err(Rejected);
    }
    if Skeptic(w) {
      var verdicts := res.value.verdicts;
      for i := 0 to |verdicts|
        invariant forall j | 0 <= j < i :: verdicts[j].severity != Validators.Warn
      {
        if verdicts[i].severity == Validators.Warn {
          return Err(SkepticWarn);
        }
      }
    }
    return Ok(());
  }

  // The guards before the language model is asked; the answer is the workload.
  method Admit(w: Workflow, world: World, p: Payload) returns (r: Result<string, Error>)
    ensures r.Ok? ==>
              (Skeptic(w) ==> w.validator.Some?) && world.parseValues(p.chartYAML).Some? &&
              r.value == Primary(world.parseValues(p.chartYAML).value, p.finding.workload) &&
              DirectlyOwned(w, p) && ConfidenceOk(p) && CutOk(p)
    ensures r.Err? ==> Blocks(r.error, w, world, p, true)
  {
    var effectiveSkeptic := w.skepticMode;
    if w.tenantSettings.Some? && w.tenantSettings.value.Some? {
      effectiveSkeptic := w.tenantSettings.value.value;
    }
    if effectiveSkeptic && w.validator.None? {
      return Err(SkepticNeedsValidator);
    }
    var workloads := world.parseValues(p.chartYAML);
    if workloads.None? {
      return Err(BadChart);
    }
    var primary := PrimaryWorkload(workloads.value, p.finding.workload);
    var direct := CheckOwners(w, p, primary);
    if !direct {
      return Err(OperatorOwned);
    }
    if !ConfidenceOk(p) {
      return Err(LowConfidence);
    }
    if !CutOk(p) {
      return Err(ReplicaCut);
    }
    return Ok(primary);
  }

  // The steps from the chart to the finished pull request.
  method Prepare(w: Workflow, world: World, p: Payload) returns (r: Result<PullRequest, Error>)
    requires Gate.Sane(world.yaml) && w.composer.Some? && w.gate.Some?
    ensures r.Ok? ==> Cleared(w, world, p, r.value)
    ensures r.Err? ==> Blocks(r.error, w, world, p, true)
  {
    var admitted := Admit(w, world, p);
    if admitted.Err? {
      return Err(admitted.error);
    }
    var primary := admitted.value;
    var resp := w.composer.value(FixRequest(p.finding, p.chartYAML, primary, p.model));
    if resp.None? {
      return Err(ComposeFailed);
    }
    var gate := CheckGate(w, world, GateCandidate(p, primary, resp.value.unifiedDiff));
    if gate.Err? {
      return Err(gate.error);
    }
    var valid := CheckValidator(w, Proposal(p, primary));
    if valid.Err? {
      return Err(valid.error);
    }
    var body := world.render(p, resp.value);
    if body.None? {
      return Err(RenderFailed);
    }
    return Ok(RequestFor(p, resp.value, body.value));
  }

  // At most one pull request is published, and only one that every guard cleared;
  // every error names a guard that failed.
  method Execute(w: Workflow, world: World, publisher: Publisher?, raw: string) returns (r: Result<(), Error>)
    requires Gate.Sane(world.yaml)
    modifies publisher
    ensures publisher != null && publisher.published != old(publisher.published) ==>
              world.decode(raw).Some? &&
              exists pr :: publisher.published == old(publisher.published) + [pr] &&
                           Cleared(w, world, world.decode(raw).value, pr)
    ensures publisher != null ==>
              (publisher.published != old(publisher.published) <==> r.Ok? || r.error == PublishFailed)
    ensures r.Ok? || r.error == PublishFailed ==> publisher != null
    ensures r.Ok? ==> publisher.up
    ensures r.Err? ==>
              match r.error
              case BadPayload => world.decode(raw).None?
              case NoPublisher => publisher == null
              case e => world.decode(raw).Some? &&
                        Blocks(e, w, world, world.decode(raw).value, publisher != null && publisher.up)
  {
    var decoded := world.decode(raw);
    if decoded.None? {
      return Err(BadPayload);
    }
    if w.composer.None? {
      return Err(NoComposer);
    }
    if w.gate.None? {
      return Err(NoGate);
    }
    if publisher == null {
      return Err(NoPublisher);
    }
    var pr := Prepare(w, world, decoded.value);
    if pr.Err? {
      return Err(pr.error);
    }
    ghost var before := publisher.published;
    var ok := publisher.Publish(pr.value);
    assert |publisher.published| == |before| + 1;
    if !ok {
      return Err(PublishFailed);
    }
    return Ok(());
  }

  // ------------------------------------------------- the worker's own wiring

  // cmd/worker/register.go: no agent client yet, so the dry-run stage is not
  // implemented there.
  const WORKER_GATE: Gate.Pipeline :=
    Gate.Pipeline(Gate.Skeleton, [Gate.Render, Gate.Conforms([]), Gate.DryRuns(None), Gate.Floors(0.5)])

  function Candidate(world: World, p: Payload, diff: string): Gate.Candidate
    requires world.parseValues(p.chartYAML).Some?
  {
    GateCandidate(p, Primary(world.parseValues(p.chartYAML).value, p.finding.workload), diff)
  }

  lemma StagePassed(gate: Gate.Pipeline, c: Gate.Candidate, yaml: Gate.Parser, stages: seq<Gate.StageResult>, i: nat)
    requires Gate.Ran(gate, c, yaml, stages) && Gate.AllAllowed(gate, stages) && i < |gate.validators|
    requires gate.validators[i].Render? || gate.validators[i].Floors?
    ensures Gate.Judged(gate.validators[i], c, yaml, Gate.Passed)
  {
    assert Gate.Judged(gate.validators[i], c, yaml, stages[i].status);
    assert gate.policy.Allows(stages[i].status);
  }

  // What the two text stages of a gate establish about a candidate that passed it,
  // whatever the policy and the other stages.
  ghost predicate SafeDiff(yaml: Gate.Parser, c: Gate.Candidate, cap: real) {
    exists patched ::
      Gate.Applies(c, patched) && yaml.parses(patched) &&
      Gate.SafeTrees(yaml.decode(c.chartYAML), yaml.decode(patched), cap) &&
      (Apart(yaml.decode(c.chartYAML).value, yaml.decode(patched).value) ==>
         Kept(yaml.decode(c.chartYAML).value, yaml.decode(patched).value, cap))
  }

  lemma PassedDiffIsSafe(gate: Gate.Pipeline, c: Gate.Candidate, yaml: Gate.Parser, stages: seq<Gate.StageResult>,
                         r: real)
    requires Gate.Ran(gate, c, yaml, stages) && Gate.AllAllowed(gate, stages)
    requires Gate.Render in gate.validators && Gate.Floors(r) in gate.validators
    ensures SafeDiff(yaml, c, Gate.Cap(r))
  {
    var i :| 0 <= i < |gate.validators| && gate.validators[i] == Gate.Render;
    var j :| 0 <= j < |gate.validators| && gate.validators[j] == Gate.Floors(r);
    StagePassed(gate, c, yaml, stages, i);
    StagePassed(gate, c, yaml, stages, j);
    var rendered :| Gate.Applies(c, rendered) && yaml.parses(rendered);
    var patched :| Gate.Applies(c, patched) &&
                   Gate.SafeTrees(yaml.decode(c.chartYAML), yaml.decode(patched), Gate.Cap(r));
    assert rendered == patched;
    var before, after := yaml.decode(c.chartYAML).value, yaml.decode(patched).value;
    if Apart(before, after) {
      PassedIsKept(before, after, Gate.Cap(r));
    }
  }

  // End to end: with a gate that renders and floors and the default validators, a
  // published diff applied, kept every label and, where no two quantities share a flat
  // key, every resource's share, met every constraint the cluster reports, and had a
  // direct owner chain when checked.
  lemma PublishedIsSafe(w: Workflow, world: World, p: Payload, pr: PullRequest, r: real)
    requires Cleared(w, world, p, pr)
    requires Gate.Render in w.gate.value.validators && Gate.Floors(r) in w.gate.value.validators
    requires w.validator == Some(Validators.Default())
    ensures SafeDiff(world.yaml, Candidate(world, p, pr.unifiedDiff), Gate.Cap(r))
    ensures Validators.Admissible(Proposal(p, Primary(world.parseValues(p.chartYAML).value, p.finding.workload)))
    ensures DirectlyOwned(w, p)
  {
    var primary := Primary(world.parseValues(p.chartYAML).value, p.finding.workload);
    var c := Candidate(world, p, pr.unifiedDiff);
    var stages: seq<Gate.StageResult> :|
      Gate.Ran(w.gate.value, c, world.yaml, stages) && Gate.AllAllowed(w.gate.value, stages);
    PassedDiffIsSafe(w.gate.value, c, world.yaml, stages, r);
    Validators.DefaultIsExact(Proposal(p, primary));
  }

  // In skeptic mode every stage passed, whatever the validators.
  lemma SkepticStagesPassed(w: Workflow, world: World, p: Payload, pr: PullRequest)
    requires Cleared(w, world, p, pr) && Skeptic(w)
    ensures forall v | v in w.gate.value.validators ::
              Gate.Judged(v, Candidate(world, p, pr.unifiedDiff), world.yaml, Gate.Passed)
  {
    var c := Candidate(world, p, pr.unifiedDiff);
    var stages: seq<Gate.StageResult> :|
      Gate.Ran(w.gate.value, c, world.yaml, stages) && Gate.AllAllowed(w.gate.value, stages) && AllPassed(stages);
    forall v | v in w.gate.value.validators ensures Gate.Judged(v, c, world.yaml, Gate.Passed) {
      var i :| 0 <= i < |w.gate.value.validators| && w.gate.value.validators[i] == v;
      assert stages[i].status == Gate.Passed;
    }
  }

  // With the default validators, no replica change on a workload with an HPA is
  // published then.
  lemma SkepticPublishesLess(w: Workflow, world: World, p: Payload, pr: PullRequest)
    requires Cleared(w, world, p, pr) && Skeptic(w)
    requires w.validator == Some(Validators.Default())
    ensures forall v | v in w.gate.value.validators ::
              Gate.Judged(v, Candidate(world, p, pr.unifiedDiff), world.yaml, Gate.Passed)
    ensures p.signals.hpa.Some? ==> p.proposedReplicas == 0
  {
    SkepticStagesPassed(w, world, p, pr);
    var primary := Primary(world.parseValues(p.chartYAML).value, p.finding.workload);
    Validators.DefaultIsExact(Proposal(p, primary));
  }

  // A gate with a stage that is not implemented publishes nothing in skeptic mode,
  // whatever its policy and the validators are; the worker's is one.
  lemma SkepticNeedsEveryStage(w: Workflow, world: World, p: Payload, pr: PullRequest)
    requires w.gate.Some? && Skeptic(w)
    requires (exists s :: Gate.Stub(s) in w.gate.value.validators) || Gate.DryRuns(None) in w.gate.value.validators
    ensures !Cleared(w, world, p, pr)
    ensures Gate.DryRuns(None) in WORKER_GATE.validators
  {
    assert WORKER_GATE.validators[2] == Gate.DryRuns(None);
    if Cleared(w, world, p, pr) {
      SkepticStagesPassed(w, world, p, pr);
    }
  }
}
