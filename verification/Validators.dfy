// internal/validator: cluster constraints a candidate is checked against before
// it is recommended.
module Validators {
  import opened Prelude

  datatype PDB = PDB(minAvailable: int, maxUnavailable: int, currentReplicas: int)
  datatype Quota = Quota(cpuMillicores: int, memoryBytes: int, usedCPUMilli: int, usedMemoryB: int)
  datatype LimitRange = LimitRange(maxCPU: int, maxMemory: int, minCPU: int, minMemory: int)
  datatype HPA = HPA(minReplicas: int, maxReplicas: int, currentReps: int)

  datatype Signals = Signals(
    pdb: Option<PDB>, quota: Option<Quota>, limitRange: Option<LimitRange>, hpa: Option<HPA>,
    oomRecent: bool, dependents: seq<string>)

  // Quantities of zero mean "unchanged".
  datatype Candidate = Candidate(
    workloadID: string, detectorID: string, title: string,
    cpuMillicores: int, memoryBytes: int, replicas: int, monthlyUSDCents: int, signals: Signals)

  datatype Severity = Info | Warn | Hard

  datatype Verdict = Verdict(validator: string, severity: Severity, reason: string)

  // A check passes (None), objects, or errs.
  type Check = Candidate -> Result<Option<Verdict>, string>

  function Objection(severity: Severity, reason: string): Result<Option<Verdict>, string> {
    Ok(Some(Verdict("", severity, reason)))
  }

  function CheckPDB(c: Candidate): Result<Option<Verdict>, string> {
    if c.signals.pdb.None? || c.replicas == 0 then Ok(None)
    else if c.signals.pdb.value.minAvailable <= 0 then Ok(None)
    else if c.replicas < c.signals.pdb.value.minAvailable
    then Objection(Hard, "proposed replicas below PDB minAvailable")
    else Ok(None)
  }

  function CheckQuota(c: Candidate): Result<Option<Verdict>, string> {
    if c.signals.quota.None? then Ok(None)
    else
      var q := c.signals.quota.value;
      if c.cpuMillicores > 0 && q.cpuMillicores > 0 && q.usedCPUMilli + c.cpuMillicores > q.cpuMillicores
      then Objection(Hard, "proposed CPU exceeds namespace ResourceQuota")
      else if c.memoryBytes > 0 && q.memoryBytes > 0 && q.usedMemoryB + c.memoryBytes > q.memoryBytes
      then Objection(Hard, "proposed memory exceeds namespace ResourceQuota")
      else Ok(None)
  }

  function CheckLimitRange(c: Candidate): Result<Option<Verdict>, string> {
    if c.signals.limitRange.None? then Ok(None)
    else
      var lr := c.signals.limitRange.value;
      if c.cpuMillicores > 0 && lr.maxCPU > 0 && c.cpuMillicores > lr.maxCPU
      then Objection(Hard, "proposed CPU above LimitRange max")
      else if c.cpuMillicores > 0 && lr.minCPU > 0 && c.cpuMillicores < lr.minCPU
      then Objection(Hard, "proposed CPU below LimitRange min")
      else if c.memoryBytes > 0 && lr.maxMemory > 0 && c.memoryBytes > lr.maxMemory
      then Objection(Hard, "proposed memory above LimitRange max")
      else if c.memoryBytes > 0 && lr.minMemory > 0 && c.memoryBytes < lr.minMemory
      then Objection(Hard, "proposed memory below LimitRange min")
      else Ok(None)
  }

  function CheckHPA(c: Candidate): Result<Option<Verdict>, string> {
    if c.signals.hpa.None? || c.replicas == 0 then Ok(None)
    else if c.replicas < c.signals.hpa.value.minReplicas
    then Objection(Hard, "proposed replicas below HPA minReplicas")
    else if c.replicas > c.signals.hpa.value.maxReplicas
    then Objection(Hard, "proposed replicas above HPA maxReplicas")
    else Objection(Warn, "workload has HPA; replica change will be overridden")
  }

  function CheckDependents(maxDependents: int, c: Candidate): Result<Option<Verdict>, string> {
    var maxDep := if maxDependents == 0 then 3 else maxDependents;
    if |c.signals.dependents| > maxDep then Objection(Hard, "too many dependents for an automatic fix") else Ok(None)
  }

  function CheckOOM(c: Candidate): Result<Option<Verdict>, string> {
    if !c.signals.oomRecent then Ok(None)
    else if c.memoryBytes <= 0 then Ok(None)
    else Objection(Hard, "recent OOMKill, memory cut rejected")
  }

  datatype Named = Named(name: string, check: Check)

  function Default(): seq<Named> {
    [Named("pdb", CheckPDB), Named("resourcequota", CheckQuota), Named("limitrange", CheckLimitRange),
     Named("hpabounds", CheckHPA), Named("dependency", c => CheckDependents(0, c)), Named("oom-recent", CheckOOM)]
  }

  // ------------------------------------------------- the pipeline

  datatype Outcome = Outcome(verdicts: seq<Verdict>, rejected: Option<Verdict>)

  // The verdicts of checks that object, in order, each under its check's name; an
  // erring check ends the run.
  function Verdicts(checks: seq<Named>, c: Candidate): Result<seq<Verdict>, string>
    decreases |checks|
  {
    if checks == [] then Ok([])
    else
      match checks[0].check(c)
      case Err(e) => Err(checks[0].name + ": " + e)
      case Ok(v) =>
        match Verdicts(checks[1..], c)
        case Err(e) => Err(e)
        case Ok(rest) =>
          Ok((if v.Some? then [v.value.(validator := checks[0].name)] else []) + rest)
  }

  function FirstHard(verdicts: seq<Verdict>): Option<Verdict> {
    if verdicts == [] then None
    else if verdicts[0].severity == Hard then Some(verdicts[0])
    else FirstHard(verdicts[1..])
  }

  lemma {:induction false} FirstHardAppend(a: seq<Verdict>, b: seq<Verdict>)
    ensures FirstHard(a + b) == if FirstHard(a).Some? then FirstHard(a) else FirstHard(b)
  {
    if a == [] {
      assert a + b == b;
    } else {
      assert (a + b)[1..] == a[1..] + b;
      FirstHardAppend(a[1..], b);
    }
  }

  lemma StartsEmpty(checks: seq<Named>, c: Candidate)
    requires Verdicts(checks, c).Ok?
    ensures [] + Verdicts(checks, c).value == Verdicts(checks, c).value
  {
  }

  // A hard verdict does not stop the run: every later check still adds its
  // verdict, and the first hard one stays the rejection.
  method Run(checks: seq<Named>, c: Candidate) returns (r: Result<Outcome, string>)
    ensures match Verdicts(checks, c)
            case Err(e) => r == Err(e)
            case Ok(verdicts) => r == Ok(Outcome(verdicts, FirstHard(verdicts)))
  {
    var verdicts: seq<Verdict> := [];
    var rejected: Option<Verdict> := None;
    assert checks[0..] == checks;
    if Verdicts(checks, c).Ok? {
      StartsEmpty(checks, c);
    }
    for i := 0 to |checks|
      invariant rejected == FirstHard(verdicts)
      invariant match Verdicts(checks[i..], c)
                case Err(e) => Verdicts(checks, c) == Err(e)
                case Ok(rest) => Verdicts(checks, c) == Ok(verdicts + rest)
    {
      assert checks[i..][0] == checks[i] && checks[i..][1..] == checks[i + 1..];
      var verdict := checks[i].check(c);
      if verdict.Err? {
        return Err(checks[i].name + ": " + verdict.error);
      }
      if verdict.value.None? {
        if Verdicts(checks[i + 1..], c).Ok? {
          var rest := Verdicts(checks[i + 1..], c).value;
          assert [] + rest == rest;
        }
        continue;
      }
      var v := verdict.value.value.(validator := checks[i].name);
      FirstHardAppend(verdicts, [v]);
      if Verdicts(checks[i + 1..], c).Ok? {
        Assoc(verdicts, [v], Verdicts(checks[i + 1..], c).value);
      }
      verdicts := verdicts + [v];
      if v.severity == Hard && rejected.None? {
        rejected := Some(v);
      }
    }
    assert checks[|checks|..] == [] && verdicts + [] == verdicts;
    r := Ok(Outcome(verdicts, rejected));
  }

  // ------------------------------------------------- what a passed run means

  // The change respects every constraint the cluster reports.
  ghost predicate Admissible(c: Candidate) {
    var s := c.signals;
    (s.pdb.Some? && s.pdb.value.minAvailable > 0 && c.replicas != 0 ==> c.replicas >= s.pdb.value.minAvailable) &&
    (s.quota.Some? ==>
       (c.cpuMillicores > 0 && s.quota.value.cpuMillicores > 0 ==>
          s.quota.value.usedCPUMilli + c.cpuMillicores <= s.quota.value.cpuMillicores) &&
       (c.memoryBytes > 0 && s.quota.value.memoryBytes > 0 ==>
          s.quota.value.usedMemoryB + c.memoryBytes <= s.quota.value.memoryBytes)) &&
    (s.limitRange.Some? ==>
       (c.cpuMillicores > 0 ==> Within(c.cpuMillicores, s.limitRange.value.minCPU, s.limitRange.value.maxCPU)) &&
       (c.memoryBytes > 0 ==> Within(c.memoryBytes, s.limitRange.value.minMemory, s.limitRange.value.maxMemory))) &&
    (s.hpa.Some? && c.replicas != 0 ==> s.hpa.value.minReplicas <= c.replicas <= s.hpa.value.maxReplicas) &&
    |s.dependents| <= 3 &&
    (s.oomRecent ==> c.memoryBytes <= 0)
  }

  // Bounds of zero or less do not bind.
  predicate Within(x: int, low: int, high: int) { (high > 0 ==> x <= high) && (low > 0 ==> x >= low) }

  type Answer = Result<Option<Verdict>, string>

  predicate Silent(r: Answer) { r.Ok? && r.value.None? }

  predicate Objects(r: Answer, severity: Severity) { r.Ok? && r.value.Some? && r.value.value.severity == severity }

  lemma ReplicaChecksMean(c: Candidate)
    ensures Silent(CheckPDB(c)) || Objects(CheckPDB(c), Hard)
    ensures Silent(CheckHPA(c)) || Objects(CheckHPA(c), Hard) || Objects(CheckHPA(c), Warn)
    ensures Objects(CheckHPA(c), Warn) ==> c.signals.hpa.Some? && c.replicas != 0
    ensures Silent(CheckHPA(c)) <==> c.signals.hpa.None? || c.replicas == 0
  {
  }

  lemma ResourceChecksMean(c: Candidate)
    ensures Silent(CheckQuota(c)) || Objects(CheckQuota(c), Hard)
    ensures Silent(CheckLimitRange(c)) || Objects(CheckLimitRange(c), Hard)
    ensures Silent(CheckDependents(0, c)) || Objects(CheckDependents(0, c), Hard)
    ensures Silent(CheckOOM(c)) || Objects(CheckOOM(c), Hard)
  {
  }

  lemma CheckMeans(c: Candidate)
    ensures Admissible(c) <==>
            Silent(CheckPDB(c)) && Silent(CheckQuota(c)) && Silent(CheckLimitRange(c)) &&
            !Objects(CheckHPA(c), Hard) && Silent(CheckDependents(0, c)) && Silent(CheckOOM(c))
  {
  }

  function Told(n: Named, c: Candidate): seq<Verdict>
    requires n.check(c).Ok?
  {
    if n.check(c).value.Some? then [n.check(c).value.value.(validator := n.name)] else []
  }

  // The check objects to c with the given severity.
  predicate Says(n: Named, c: Candidate, severity: Severity) {
    n.check(c).Ok? && n.check(c).value.Some? && n.check(c).value.value.severity == severity
  }

  lemma {:induction false} ToldAll(checks: seq<Named>, c: Candidate)
    requires forall i | 0 <= i < |checks| :: checks[i].check(c).Ok?
    ensures Verdicts(checks, c).Ok?
    ensures FirstHard(Verdicts(checks, c).value).Some? <==> exists i | 0 <= i < |checks| :: Says(checks[i], c, Hard)
    ensures (exists v | v in Verdicts(checks, c).value :: v.severity == Warn) <==>
            exists i | 0 <= i < |checks| :: Says(checks[i], c, Warn)
    decreases |checks|
  {
    if checks != [] {
      ToldAll(checks[1..], c);
      var told, rest := Told(checks[0], c), Verdicts(checks[1..], c).value;
      assert Verdicts(checks, c).value == told + rest;
      FirstHardAppend(told, rest);
      forall severity
        ensures (exists i | 0 <= i < |checks| :: Says(checks[i], c, severity)) <==>
                Says(checks[0], c, severity) || exists i | 0 <= i < |checks| - 1 :: Says(checks[1..][i], c, severity)
      {
        if i :| 0 <= i < |checks| && Says(checks[i], c, severity) && i > 0 {
          assert checks[i] == checks[1..][i - 1];
        }
      }
    }
  }

  lemma DefaultChecks(c: Candidate)
    ensures var d := Default();
            |d| == 6 && d[0].check(c) == CheckPDB(c) && d[1].check(c) == CheckQuota(c) &&
            d[2].check(c) == CheckLimitRange(c) && d[3].check(c) == CheckHPA(c) &&
            d[4].check(c) == CheckDependents(0, c) && d[5].check(c) == CheckOOM(c)
  {
  }

  lemma SixAnswers(d: seq<Named>, c: Candidate, p: Answer, q: Answer, l: Answer, h: Answer, x: Answer, o: Answer)
    requires |d| == 6 && d[0].check(c) == p && d[1].check(c) == q && d[2].check(c) == l
    requires d[3].check(c) == h && d[4].check(c) == x && d[5].check(c) == o
    requires (Silent(p) || Objects(p, Hard)) && (Silent(q) || Objects(q, Hard)) && (Silent(l) || Objects(l, Hard))
    requires (Silent(x) || Objects(x, Hard)) && (Silent(o) || Objects(o, Hard))
    requires Silent(h) || Objects(h, Hard) || Objects(h, Warn)
    ensures Verdicts(d, c).Ok?
    ensures FirstHard(Verdicts(d, c).value).None? <==>
            Silent(p) && Silent(q) && Silent(l) && !Objects(h, Hard) && Silent(x) && Silent(o)
    ensures (exists v | v in Verdicts(d, c).value :: v.severity == Warn) <==> Objects(h, Warn)
  {
    ToldAll(d, c);
    assert forall i, s :: 0 <= i < 6 ==> (Says(d[i], c, s) <==> Objects(d[i].check(c), s));
    assert Says(d[0], c, Hard) <==> Objects(p, Hard);
    assert Says(d[1], c, Hard) <==> Objects(q, Hard);
    assert Says(d[2], c, Hard) <==> Objects(l, Hard);
    assert Says(d[3], c, Hard) <==> Objects(h, Hard);
    assert Says(d[4], c, Hard) <==> Objects(x, Hard);
    assert Says(d[5], c, Hard) <==> Objects(o, Hard);
    assert Says(d[3], c, Warn) <==> Objects(h, Warn);
  }

  // The default pipeline rejects exactly what is not admissible, and warns exactly
  // about an in-bounds replica change on an HPA workload.
  lemma DefaultIsExact(c: Candidate)
    ensures Verdicts(Default(), c).Ok?
    ensures FirstHard(Verdicts(Default(), c).value).None? <==> Admissible(c)
    ensures Admissible(c) ==>
              ((exists v | v in Verdicts(Default(), c).value :: v.severity == Warn) <==>
               c.signals.hpa.Some? && c.replicas != 0)
  {
    DefaultChecks(c);
    ReplicaChecksMean(c);
    ResourceChecksMean(c);
    CheckMeans(c);
    SixAnswers(Default(), c, CheckPDB(c), CheckQuota(c), CheckLimitRange(c), CheckHPA(c), CheckDependents(0, c),
               CheckOOM(c));
  }
}
