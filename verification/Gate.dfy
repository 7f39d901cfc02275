// applyfix/gate: the stages a candidate diff has to pass, run in order under a
// policy.
module Gate {
  import opened Prelude
  import opened Text
  import opened UnifiedDiff
  import opened Quantity
  import opened SafetyFloor
  import opened SafetyLaws

  datatype Stage = Template | Conform | Dryrun | Post

  // Panicked is no status of the source: it stands for a stage that does not return,
  // whose panic goes through the pipeline to its caller.
  datatype Status = Passed | Failed | NotImplemented | Panicked

  datatype StageResult = StageResult(stage: Stage, status: Status, detail: string)

  datatype Candidate = Candidate(applyFixID: string, chartYAML: string, unifiedDiff: string, workload: string)

  // The YAML library: whether a text parses at all, and its top-level mapping.
  datatype Parser = Parser(parses: string -> bool, decode: string -> Option<Yaml>)

  // The agent's dry-run service: refused, accepted or in error.
  type Agent = Candidate -> Result<bool, string>

  datatype Validator =
    | Render
    | Conforms(requiredKeys: seq<string>)
    | DryRuns(client: Option<Agent>)
    | Floors(maxReduction: real)
    | Stub(s: Stage)
  {
    function StageOf(): Stage {
      match this
      case Render => Template
      case Conforms(_) => Conform
      case DryRuns(_) => Dryrun
      case Floors(_) => Post
      case Stub(s) => s
    }
  }

  // A panic never comes before the policy, so neither allows it.
  datatype Policy = Skeleton | Strict {
    predicate Allows(status: Status) {
      match this
      case Skeleton => status != Failed && status != Panicked
      case Strict => status == Passed
    }
  }

  predicate Blank(s: string) { TrimSpace(s) == "" }

  // The key occurs in some mapping of the tree.
  predicate HasKey(node: Yaml, key: string) {
    match node
    case Map(m) => key in m || exists k | k in m :: HasKey(m[k], key)
    case Seq(items) => exists e | e in items :: HasKey(e, key)
    case _ => false
  }

  // Wherever apiVersion or kind occurs it is a nonempty string.
  predicate ShapeOk(node: Yaml) {
    match node
    case Map(m) =>
      ("apiVersion" in m ==> m["apiVersion"].Str? && m["apiVersion"].s != "") &&
      ("kind" in m ==> m["kind"].Str? && m["kind"].s != "") &&
      forall k | k in m :: ShapeOk(m[k])
    case Seq(items) => forall e | e in items :: ShapeOk(e)
    case _ => true
  }

  // ------------------------------------------------- what each stage demands

  ghost predicate Applies(c: Candidate, patched: string) {
    !Blank(c.unifiedDiff) && !Blank(c.chartYAML) && UnifiedDiff.Run(c.chartYAML, c.unifiedDiff) == Done(Ok(patched))
  }

  // Applying the diff panics.
  ghost predicate Crashes(c: Candidate) {
    !Blank(c.unifiedDiff) && !Blank(c.chartYAML) && UnifiedDiff.Run(c.chartYAML, c.unifiedDiff) == Panic
  }

  ghost predicate Renders(c: Candidate, parser: Parser) {
    exists patched :: Applies(c, patched) && parser.parses(patched)
  }

  ghost predicate DocConforms(doc: Yaml, requiredKeys: seq<string>) {
    (forall key | key in requiredKeys :: HasKey(doc, key)) && ShapeOk(doc)
  }

  ghost predicate Conforming(c: Candidate, parser: Parser, requiredKeys: seq<string>) {
    exists patched ::
      Applies(c, patched) && parser.decode(patched).Some? &&
      DocConforms(parser.decode(patched).value, requiredKeys)
  }

  function Cap(maxReduction: real): real { if maxReduction <= 0.0 then 0.5 else maxReduction }

  ghost predicate LabelsKept(before: Yaml, after: Yaml) {
    forall k :: HasLabel(before, k) ==> HasLabel(after, k)
  }

  ghost predicate SafeTrees(before: Option<Yaml>, after: Option<Yaml>, cap: real) {
    before.Some? && after.Some? && LabelsKept(before.value, after.value) && FloorKept(before.value, after.value, cap)
  }

  ghost predicate UnsafeTrees(before: Option<Yaml>, after: Option<Yaml>, cap: real) {
    before.None? || after.None? || !LabelsKept(before.value, after.value) ||
    exists s :: BrokenAt(before.value, after.value, cap, s)
  }

  // status is a possible outcome of the validator. It is the only one, except that
  // on trees where positions share a flat key the walk order may decide the floor.
  ghost predicate Judged(v: Validator, c: Candidate, parser: Parser, status: Status) {
    match v
    case Render => status == if Crashes(c) then Panicked else if Renders(c, parser) then Passed else Failed
    case Conforms(keys) =>
      status == if Crashes(c) then Panicked else if Conforming(c, parser, keys) then Passed else Failed
    case DryRuns(client) =>
      status == if client.None? then NotImplemented
                else if client.value(c) == Ok(true) then Passed else Failed
    case Floors(r) =>
      (status == Passed ==>
         exists patched ::
           Applies(c, patched) && SafeTrees(parser.decode(c.chartYAML), parser.decode(patched), Cap(r))) &&
      (status == Failed ==>
         forall patched ::
           Applies(c, patched) ==> UnsafeTrees(parser.decode(c.chartYAML), parser.decode(patched), Cap(r))) &&
      (status == Panicked <==> parser.decode(c.chartYAML).Some? && Crashes(c)) &&
      status != NotImplemented
    case Stub(_) => status == NotImplemented
  }

  // Decoded trees are small enough for itoa's buffer.
  ghost predicate Sane(parser: Parser) {
    forall s :: parser.decode(s).Some? ==> Indexable(parser.decode(s).value)
  }

  // ------------------------------------------------- the stages

  method ValidateRender(c: Candidate, parser: Parser) returns (status: Status, detail: string)
    ensures Judged(Render, c, parser, status)
  {
    if Blank(c.unifiedDiff) {
      return Failed, "empty diff";
    }
    if Blank(c.chartYAML) {
      return Failed, "empty chart yaml";
    }
    var applied := ApplyUnifiedDiff(c.chartYAML, c.unifiedDiff);
    if applied.Panic? {
      return Panicked, "";
    }
    var patched := applied.value;
    if patched.Err? {
      return Failed, "diff did not apply";
    }
    assert Applies(c, patched.value);
    if !parser.parses(patched.value) {
      return Failed, "post-diff yaml invalid";
    }
    return Passed, "";
  }

  method CheckDoc(doc: Yaml, requiredKeys: seq<string>) returns (bad: Option<string>)
    ensures bad.None? <==> DocConforms(doc, requiredKeys)
  {
    for i := 0 to |requiredKeys|
      invariant forall j | 0 <= j < i :: HasKey(doc, requiredKeys[j])
    {
      if !HasKey(doc, requiredKeys[i]) {
        assert requiredKeys[i] in requiredKeys;
        return Some("required key removed: " + requiredKeys[i]);
      }
    }
    if !ShapeOk(doc) {
      return Some("manifest shape rejected");
    }
    bad := None;
  }

  lemma AppliesOnce(c: Candidate, parser: Parser, requiredKeys: seq<string>, patched: string)
    requires Applies(c, patched)
    ensures !Crashes(c)
    ensures Conforming(c, parser, requiredKeys) <==>
            parser.decode(patched).Some? && DocConforms(parser.decode(patched).value, requiredKeys)
  {
  }

  method ValidateConform(c: Candidate, parser: Parser, requiredKeys: seq<string>)
      returns (status: Status, detail: string)
    ensures Judged(Conforms(requiredKeys), c, parser, status)
  {
    if Blank(c.chartYAML) || Blank(c.unifiedDiff) {
      return Failed, "empty input";
    }
    var applied := ApplyUnifiedDiff(c.chartYAML, c.unifiedDiff);
    if applied.Panic? {
      return Panicked, "";
    }
    var patched := applied.value;
    if patched.Err? {
      return Failed, "diff did not apply";
    }
    AppliesOnce(c, parser, requiredKeys, patched.value);
    var doc := parser.decode(patched.value);
    if doc.None? {
      return Failed, "post-diff yaml invalid";
    }
    var bad := CheckDoc(doc.value, requiredKeys);
    if bad.Some? {
      return Failed, bad.value;
    }
    return Passed, "";
  }

  method ValidatePost(c: Candidate, parser: Parser, maxReduction: real) returns (status: Status, detail: string)
    requires Sane(parser)
    ensures Judged(Floors(maxReduction), c, parser, status)
  {
    if Blank(c.chartYAML) || Blank(c.unifiedDiff) {
      return Failed, "empty input";
    }
    var before := parser.decode(c.chartYAML);
    if before.None? {
      return Failed, "pre-diff yaml invalid";
    }
    var applied := ApplyUnifiedDiff(c.chartYAML, c.unifiedDiff);
    if applied.Panic? {
      return Panicked, "";
    }
    var patched := applied.value;
    if patched.Err? {
      return Failed, "diff did not apply";
    }
    assert Applies(c, patched.value);
    var after := parser.decode(patched.value);
    if after.None? {
      return Failed, "post-diff yaml invalid";
    }
    var missing := CheckLabelsPreserved(before.value, after.value);
    if missing.Some? {
      return Failed, "labels removed";
    }
    var bad := CheckResourceBounds(before.value, after.value, Cap(maxReduction));
    if bad.Some? {
      return Failed, "resource cut exceeds safety floor";
    }
    return Passed, "";
  }

  method Validate(v: Validator, c: Candidate, parser: Parser) returns (status: Status, detail: string)
    requires Sane(parser)
    ensures Judged(v, c, parser, status)
  {
    match v
    case Render => status, detail := ValidateRender(c, parser);
    case Conforms(keys) => status, detail := ValidateConform(c, parser, keys);
    case DryRuns(client) =>
      if client.None? {
        return NotImplemented, "no agent client configured";
      }
      var out := client.value(c);
      if out.Err? {
        return Failed, "agent dry-run errored";
      }
      if !out.value {
        return Failed, "agent rejected dry-run";
      }
      return Passed, "";
    case Floors(r) => status, detail := ValidatePost(c, parser, r);
    case Stub(_) => return NotImplemented, "stage not yet implemented";
  }

  // ------------------------------------------------- the pipeline

  datatype Pipeline = Pipeline(policy: Policy, validators: seq<Validator>)

  // The stage results of a run: one per validator, in order, up to the first that
  // the policy does not allow.
  ghost predicate Ran(p: Pipeline, c: Candidate, parser: Parser, stages: seq<StageResult>) {
    |stages| <= |p.validators| &&
    (forall i | 0 <= i < |stages| ::
       stages[i].stage == p.validators[i].StageOf() && Judged(p.validators[i], c, parser, stages[i].status)) &&
    (forall i | 0 <= i < |stages| - 1 :: p.policy.Allows(stages[i].status))
  }

  ghost predicate AllAllowed(p: Pipeline, stages: seq<StageResult>) {
    |stages| == |p.validators| && forall i | 0 <= i < |stages| :: p.policy.Allows(stages[i].status)
  }

  method Run(p: Pipeline, c: Candidate, parser: Parser) returns (stages: seq<StageResult>, blocked: Option<StageResult>)
    requires Sane(parser)
    ensures Ran(p, c, parser, stages)
    ensures blocked.None? <==> AllAllowed(p, stages)
    ensures blocked.Some? ==>
              stages != [] && blocked.value == stages[|stages| - 1] && !p.policy.Allows(blocked.value.status)
  {
    stages := [];
    for i := 0 to |p.validators|
      invariant |stages| == i && Ran(p, c, parser, stages)
      invariant forall j | 0 <= j < i :: p.policy.Allows(stages[j].status)
    {
      var status, detail := Validate(p.validators[i], c, parser);
      var res := StageResult(p.validators[i].StageOf(), status, detail);
      stages := stages + [res];
      if res.status == Panicked || !p.policy.Allows(res.status) {
        return stages, Some(res);
      }
    }
    blocked := None;
  }
}
