# Optiqor: verified model

This project models the logic of Optiqor that must not be wrong: the pipeline that
lets an automatic fix become a pull request, the cache and roll-up between the agent
and Prometheus, the time-windowed state machines of the backend, and the arithmetic
and text folds of the CLI. It proves what they guarantee for every input, every
history and every interleaving.

Check it with `dafny verify dfyconfig.toml`.

## Contents

- **Apply Fix.** `UnifiedDiff` parses a diff and patches a text in place, on a model of
  Go slices over a shared array. `DiffLaws`, `PatchLaws` and `DiffRoundTrip` say what
  that means, `DiffPitfalls` when a printed diff does something else, and `DiffPanics`
  when it panics. `Quantity`, `QuantityReading`, `SafetyFloor` and `SafetyLaws` read
  quantities, flatten two value trees and compare labels and resources. `Gate`,
  `Validators`, `Operators` and `ApplyFix` compose them into one run that
  ends in a publish or in a reason not to.
- **Prometheus cache.** `PromCache` has the critical sections as methods of a class and
  as functions. `PromRuns` is the state machine of any number of callers performing
  these sections in any order, and `PromTheorems` states what holds in every run.
- **Windows.** `RateLimit`, `Coalesce` and `Onboarding`: classes proved against step
  functions, and theorems about whole histories.
- **Folds.** `Telemetry`, `Scraper`, `ValuesDiff`, `Wrap` and `Sanitizer`.
- `Prelude`, `Text` and `Sorting` hold stock datatypes and the behaviour of Go's string
  and sorting functions.

Members that change state carry contracts that give the whole new state as a function
of the old one; the theorems are about these functions.

## Where the code differs from its comments, or from the obvious claim

The model follows the code.

- Hunk hints are line numbers of the original text and are not shifted by earlier
  hunks, so a diff can be applied in the wrong place (`StaleHintMisplaces`);
  `InPlaceIff` gives the exact condition.
- A hunk with an empty old side is inserted one line too high (`PureInsertion`). The
  `diff` utility, "Diff -u or -U Output Format" of POSIX.1-2017, numbers an empty
  range by the line before it.
- Body lines that look like `--- ` or `+++ ` are dropped (`SeenIffNoHeaderLike`), and a
  diff text that ends with a newline demands one more blank line after its last hunk:
  without it the hunk lands elsewhere or the diff is refused (`NewlineTerminated`,
  `NewlineMisplaces`). A last hunk that only inserts then goes above the first blank
  line the search meets (`TerminatedInsertion`, `NewlineMisplacesInsertion`).
- The bounds test of the search wraps around for hints close to the largest integer,
  and the next read panics (`RunMeans`, `FarHintPanics`).
- The comment at `backend/internal/validator/validator.go:102` says that hard verdicts
  short-circuit. The loop goes on and keeps the first one.
- A values key with a dot above a resource can hide its removal
  (`DottedKeyHidesRemoval`, `SharedKeyHidesRemoval`); as long as no two quantities share
  a flat key the floor is exact (`FloorIffKept`).
- Quantities in k, u or n, with an exponent or with a sign are misread, so cuts in them
  can pass the floor (`ReadRightIff`, `KiloIsIgnored`).
- The cache keeps max(1, MaxEntries) entries, one even for a limit of zero
  (`TableIsSafe`, `AnswerIsKept`). The bucket around the epoch is nearly two TTLs wide
  (`BucketStraddlesEpoch`); every other one is within one (`BucketWithinTTLIff`).
- At the instant that Retry-After announces, the limiter still denies
  (`RetryAfterIsExclusive`).
- The worker wires a dry-run stage without a client, so in skeptic mode it never
  publishes (`SkepticNeedsEveryStage`).
- Comment stripping adds a newline to every text that ends with one (`StripTwice`,
  `StripOnceIff`).
- Halving an odd CPU request by integer division saves more than the finding promises,
  and halving an odd memory request does at a full cent (`HalvedCpuSaves`,
  `HalvedMemorySaves`).

## Model

| member | source | states |
|---|---|---|
| `UnifiedDiff.ParseDiff` | backend/internal/applyfix/gate/render.go:61-100 | the parsing loop, line by line, yields the hunks the line rules define, and a successful parse has at least one |
| `UnifiedDiff.Blocks` | backend/internal/applyfix/gate/render.go:105-116 | the old block is the kept and removed lines in order, the new block the kept and inserted ones |
| `UnifiedDiff.FirstMatchIsFirst` | backend/internal/applyfix/gate/render.go:181-186 | the result is a verbatim occurrence, none lies between the start and it, and no result means no occurrence at all |
| `UnifiedDiff.TryAt` | backend/internal/applyfix/gate/render.go:167-177 | the comparison as it runs in 64 bits: a match, a difference, or a panic on an index out of range |
| `DiffPanics.ProbeMeans` | backend/internal/applyfix/gate/render.go:167-177 | a probe panics exactly when its line plus the length of the block exceeds the largest integer; every other one tells whether the whole block stands there |
| `UnifiedDiff.SearchBlock` | backend/internal/applyfix/gate/render.go:160-187 | the search as it runs: an empty block at the hint or else at the cursor; otherwise at the hint, else the first occurrence from the cursor on, or a panic on the way |
| `UnifiedDiff.AppendAt` | backend/internal/applyfix/gate/render.go:121 | Go's append over a shared backing array gives the prefix and the appended lines, whether it overwrites or reallocates |
| `UnifiedDiff.Splice` | backend/internal/applyfix/gate/render.go:121 | the nested appends replace one block and keep every other line, although they overwrite the array they read from |
| `UnifiedDiff.ApplyOne` | backend/internal/applyfix/gate/render.go:104-123 | one round: the place the search gives, the splice there and the cursor behind the new block, or the panic of the search or of slicing |
| `UnifiedDiff.ApplyParsed` | backend/internal/applyfix/gate/render.go:102-124 | the in-place loop computes the pure chain of replacements, with the same failures and panics |
| `UnifiedDiff.ApplyUnifiedDiff` | backend/internal/applyfix/gate/render.go:60-125 | the whole function refines its pure definition, panics included, on every text and every diff |
| `DiffPanics.RunMeans` | backend/internal/applyfix/gate/render.go:60-187 | applying a diff panics if and only if it comes to a hunk with a nonempty old side whose hint wraps around; otherwise it gives its meaning in unbounded integers |
| `DiffPanics.FarHintPanics` | backend/internal/applyfix/gate/render.go:168-172 | whatever the source, a diff with two context lines numbered 9223372036854775807 panics |
| `DiffPanics.PrintedRuns` | backend/internal/applyfix/gate/render.go:60-125 | a diff printed for the text it is applied to never panics |
| `DiffPanics.TerminatedRuns` | backend/internal/applyfix/gate/render.go:60-125 | nor does the same diff with a newline at its end, so what is said of its result holds of the code as it runs |
| `DiffPanics.RunRewrites` | backend/internal/applyfix/gate/render.go:60-125 | whatever the diff, a success as the code runs is the source after one verbatim block replacement per hunk |
| `DiffPanics.RoundTripRuns` | backend/internal/applyfix/gate/render.go:60-125 | the round trip as the code runs |
| `DiffLaws.ApplyRewrites` | backend/internal/applyfix/gate/render.go:102-124 | whenever any diff applies, the result is the source after one in-range verbatim block replacement per hunk, and the line count changes by new minus old |
| `DiffLaws.RewritesUndone` | backend/internal/applyfix/gate/render.go:102-124 | no success destroys information: the reversed hunks, last first, are a chain of verbatim replacements back to the source |
| `DiffLaws.ParsePrintedHeader` | backend/internal/applyfix/gate/render.go:127-158 | a printed hunk header parses back to its start and length, for all line numbers an int holds |
| `DiffLaws.ParsePrintedChanges` | backend/internal/applyfix/gate/render.go:65-97 | a printed list of changes parses to its hunks after any hunks read before and whatever follows |
| `DiffLaws.ParsePrinted` | backend/internal/applyfix/gate/render.go:61-100 | a printed diff parses back to its hunks less the lines taken for file headers; a final newline adds one empty context line |
| `DiffLaws.SeenIffNoHeaderLike` | backend/internal/applyfix/gate/render.go:66-68 | parsing gives all printed lines back exactly when no removed line starts with `-- ` and no inserted one with `++ ` |
| `PatchLaws.FoundIffUnambiguous` | backend/internal/applyfix/gate/render.go:160-187 | the search finds a block at its true place if and only if a condition on the hint and on earlier occurrences holds |
| `PatchLaws.FoundIffInPlace` | backend/internal/applyfix/gate/render.go:102-124 | whatever the search, all patches of an ordered list land at their true places if and only if each is found there in the text built so far |
| `PatchLaws.InPlaceIff` | backend/internal/applyfix/gate/render.go:102-124 | with the search of the code that means: each is unambiguous in the text built so far |
| `PatchLaws.AppliedInPlace` | backend/internal/applyfix/gate/render.go:102-124 | unambiguous ordered patches give exactly the intended text |
| `PatchLaws.SteadyUnambiguous` | backend/internal/applyfix/gate/render.go:117 | hints from the original numbering are right when every patch but the last keeps the line count and no old block is empty |
| `PatchLaws.SwapInOrder` | backend/internal/applyfix/gate/render.go:102-124 | the swapped patches lie in the target as the patches lie in the source, and their intended text is the source |
| `DiffRoundTrip.PrintedApplies` | backend/internal/applyfix/gate/render.go:60-125 | a printed diff whose hunks are unambiguous applies, as text, to exactly the intended text |
| `DiffRoundTrip.SteadyApplies` | backend/internal/applyfix/gate/render.go:60-125 | the same for every diff with nonempty old blocks in which all hunks but the last keep the line count |
| `DiffRoundTrip.RoundTrip` | backend/internal/applyfix/gate/render.go:60-125 | apply and apply with `+` and `-` swapped: the target and then the source again |
| `DiffPitfalls.PrintedInPlaceIff` | backend/internal/applyfix/gate/render.go:102-124 | the hunks parsed from a printed diff all land at their true places in a text if and only if each is unambiguous |
| `DiffPitfalls.NewlineTerminated` | backend/internal/applyfix/gate/render.go:65-85 | what a diff text ending in a newline comes to, for line-count-keeping hunks: as intended with a blank line behind the last hunk; otherwise the last hunk goes to the next place above a blank line, and the diff is refused if there is none |
| `DiffPitfalls.NewlineTerminatedIff` | backend/internal/applyfix/gate/render.go:81-85 | all hunks of such a diff land at their true places if and only if a blank line follows the last one |
| `DiffPitfalls.TerminatedInPlaceIff` | backend/internal/applyfix/gate/render.go:81-85 | for any ordered hunks, also one at the end that only inserts: if and only if moreover each is unambiguous, the last one as the search for its lines and the blank one, from the hint of its own header |
| `DiffPitfalls.NewlineMisplaces` | backend/internal/applyfix/gate/render.go:81-85 | a concrete diff ending in a newline that changes line 3 instead of line 1 |
| `DiffPitfalls.TerminatedInsertion` | backend/internal/applyfix/gate/render.go:81-186 | the exact result when the last hunk of such a diff only inserts: its lines go above the line before them if that is blank, else above the first blank line after the hunks before, and without one the diff is refused |
| `DiffPitfalls.TerminatedInsertionIff` | backend/internal/applyfix/gate/render.go:81-85 | that is the intended text if and only if there is such a blank line, and the new lines and the lines between it and their true place are repetitions of one block |
| `DiffPitfalls.NewlineMisplacesInsertion` | backend/internal/applyfix/gate/render.go:81-85 | a concrete one that inserts above line 1 instead of below it, although a blank line follows |
| `DiffPitfalls.NewlineTerminatedMisses` | backend/internal/applyfix/gate/render.go:81-85 | a text without blank lines refuses every diff that ends in a newline and inserts no blank line, whatever its hunks are |
| `DiffPitfalls.PureInsertion` | backend/internal/applyfix/gate/render.go:161-166 | a diff that only inserts, below a line, lands one line too high; the text is right if and only if every new line repeats the line above |
| `DiffPitfalls.StaleHintMisplaces` | backend/internal/applyfix/gate/render.go:117-122 | a concrete diff whose second hunk lands on the wrong copy of its block, because the hint was not shifted |
| `Quantity.ParseFloat` | backend/internal/applyfix/gate/post.go:188-209 | the character loop computes the digit-by-digit value |
| `Quantity.WholeValue` | backend/internal/applyfix/gate/post.go:188-209 | digits denote the number they write in decimal |
| `Quantity.DecimalValue` | backend/internal/applyfix/gate/post.go:188-209 | digits, a dot and digits denote whole part plus decimal fraction |
| `Quantity.ParseScaled` | backend/internal/applyfix/gate/post.go:172-185 | the first matching suffix of the table scales the number before it; without one the text is read as it is |
| `Quantity.ParseQuantity` | backend/internal/applyfix/gate/post.go:156-186 | the method computes the quantity of every kind of value, 0 for what it does not understand |
| `Quantity.UnitsReadable` | backend/internal/applyfix/gate/post.go:176-178 | the table's order is sound: no unit hides a later one |
| `Quantity.UnitValue` | backend/internal/applyfix/gate/post.go:171-185 | a number, whole or decimal, followed by any unit of a sound table is its own value times that unit |
| `QuantityReading.ReadsAs` | backend/internal/applyfix/gate/post.go:156-209 | what the code makes of every quantity of the Kubernetes format: 0 after a sign, the value for a unit of its table, and the number alone before k, u, n or an exponent |
| `QuantityReading.ReadRightIff` | backend/internal/applyfix/gate/post.go:154-186 | a quantity of that format is read right if and only if it is zero, or has no sign and a unit of the table, no unit, or an exponent of zero |
| `QuantityReading.KiloIsIgnored` | backend/internal/applyfix/gate/post.go:171-185 | a thousandfold cut from a quantity in k to the bare number does not show |
| `SafetyFloor.Itoa` | backend/internal/applyfix/gate/post.go:211-223 | the fixed back-to-front buffer gives the decimal text of every index it can hold |
| `SafetyFloor.CollectBlock` | backend/internal/applyfix/gate/post.go:130-140 | a resources block contributes exactly its positive quantities, in whatever order its maps are read |
| `SafetyFloor.CollectResWalk` | backend/internal/applyfix/gate/post.go:127-152 | the walk adds exactly the positive quantities of the tree, each under the flat key of a position that holds it |
| `SafetyFloor.CollectResources` | backend/internal/applyfix/gate/post.go:121-125 | the same for a whole document, from the empty map |
| `SafetyLaws.PosTextInjective` | backend/internal/applyfix/gate/post.go:135-149 | distinct positions have distinct flat keys when no key on the way contains `.` or `[`; resource names may |
| `SafetyLaws.CheckResourceBounds` | backend/internal/applyfix/gate/post.go:103-116 | passes only if every flattened quantity is still there and not cut beyond the cap; a refusal names a key for which that fails |
| `SafetyLaws.ExactWhereAlone` | backend/internal/applyfix/gate/post.go:121-152 | where a position has its flat key for itself the flat map holds exactly its quantity, for every map order |
| `SafetyLaws.PlainApart` | backend/internal/applyfix/gate/post.go:135-149 | plain keys on the way to every quantity keep all flat keys apart; other keys of the trees, such as annotations, do not matter |
| `SafetyLaws.FloorIffKept` | backend/internal/applyfix/gate/post.go:103-116 | when no quantity shares its flat key, the check passes if and only if every position with a quantity keeps at least (1-cap) of it |
| `SafetyLaws.PassMeans` | backend/internal/applyfix/gate/post.go:103-152 | in general a walk can pass if and only if for every flat key of a quantity some position before and some position after respect the cap |
| `SafetyLaws.SharedKeyHidesRemoval` | backend/internal/applyfix/gate/post.go:135 | whenever two quantities of a tree share a flat key, removing one of them can pass |
| `SafetyLaws.DottedKeyHidesRemoval` | backend/internal/applyfix/gate/post.go:135 | with a dotted key two positions share a flat key, and removing one passes the floor for every map order |
| `SafetyLaws.WalkLabels` | backend/internal/applyfix/gate/post.go:83-99 | the walk adds exactly the label keys of the tree |
| `SafetyLaws.CheckLabelsPreserved` | backend/internal/applyfix/gate/post.go:67-81 | passes if and only if every label key of the old tree is one of the new tree; a refusal names a lost key |
| `Gate.ValidateRender` | backend/internal/applyfix/gate/render.go:23-38 | passes exactly when the diff applies to the chart and the result parses; panics exactly when applying the diff does |
| `Gate.ValidateConform` | backend/internal/applyfix/gate/conform.go:28-104 | passes exactly when the diff applies, required keys occur and every apiVersion and kind is a nonempty string; panics exactly when applying the diff does |
| `Gate.ValidatePost` | backend/internal/applyfix/gate/post.go:27-54 | passes only if labels are kept and the floor holds, fails only if one of these, the diff or a parse does not; panics exactly when the chart parses and applying the diff panics |
| `Gate.Validate` | backend/internal/applyfix/gate/validators.go:11-31 | every stage's status is the one its definition demands, the dry run and the stub included |
| `Gate.Run` | backend/internal/applyfix/gate/pipeline.go:95-106 | the results are those of the stages in order up to the first the policy refuses or that panics; blocked exactly when there is one, and then by the last |
| `SafetyLaws.PassedIsKept` | backend/internal/applyfix/gate/post.go:103-116 | with flat keys apart a passed floor means that every position kept its share, whichever map order the walk took |
| `SafetyLaws.RefusedIsBroken` | backend/internal/applyfix/gate/post.go:103-116 | with flat keys apart a refusal means that some position did not |
| `Validators.Run` | backend/internal/validator/validator.go:144-174 | all verdicts in order under their check's name and the first hard one as rejection; a hard verdict stops nothing, an error does |
| `Validators.ReplicaChecksMean` | backend/internal/validator/checks.go:15-113 | the PDB check is silent or hard; the HPA check is silent exactly without HPA or replica change |
| `Validators.ResourceChecksMean` | backend/internal/validator/checks.go:38-155 | quota, limit range, dependents and OOM checks never err and never merely warn |
| `Validators.CheckMeans` | backend/internal/validator/checks.go:11-155 | the six checks raise no hard objection if and only if the change respects every constraint the cluster reports |
| `Validators.ToldAll` | backend/internal/validator/validator.go:144-174 | for any list of checks that do not err, the run rejects, or warns, if and only if one of them does |
| `Validators.DefaultIsExact` | backend/internal/validator/checks.go:158-167 | the default pipeline rejects exactly the inadmissible changes, and warns exactly about in-bounds replica changes on HPA workloads |
| `ApplyFix.PrimaryWorkload` | backend/internal/worker/workflows/apply_fix.go:292-302 | the wanted workload if it is listed, else the first, else the wanted name |
| `ApplyFix.CheckOwners` | backend/internal/worker/workflows/apply_fix.go:154-166 | lets a workload through only if its owners were not checked or the unbounded walk ends direct; refuses only if the bounded walk did not |
| `ApplyFix.CheckGate` | backend/internal/worker/workflows/apply_fix.go:198-215 | lets a candidate through only if every stage was allowed and, in skeptic mode, passed; each refusal has that reason |
| `ApplyFix.CheckValidator` | backend/internal/worker/workflows/apply_fix.go:217-243 | lets a candidate through exactly when no hard verdict and, in skeptic mode, no warning is raised; each refusal has that reason |
| `ApplyFix.Prepare` | backend/internal/worker/workflows/apply_fix.go:135-262 | a prepared pull request cleared every guard; an error names a guard that failed |
| `ApplyFix.Execute` | backend/internal/worker/workflows/apply_fix.go:115-280 | at most one pull request is published, only a cleared one, and every error names a guard that failed |
| `ApplyFix.PassedDiffIsSafe` | backend/internal/worker/workflows/apply_fix.go:198-208 | a candidate through any gate with the render and floor stages applied, parsed, kept labels and passed the floor, and kept every resource's share when no quantity shares its flat key |
| `ApplyFix.PublishedIsSafe` | backend/internal/worker/workflows/apply_fix.go:115-280 | end to end: a published diff is safe in that sense, meets every cluster constraint, and its owner chain, when checked, is direct |
| `ApplyFix.SkepticPublishesLess` | backend/internal/worker/workflows/apply_fix.go:209-242 | in skeptic mode every stage passed and no replica change on an HPA workload is published |
| `ApplyFix.SkepticNeedsEveryStage` | backend/cmd/worker/register.go:42-47 | a gate with an unimplemented stage, as the worker's own wiring has, publishes nothing in skeptic mode, whatever the validators |
| `Operators.ControllingOwner` | backend/internal/operators/detector.go:110-120 | the first owner marked as controller, else the first owner, else none |
| `Operators.VerdictMeans` | backend/internal/operators/detector.go:69-105 | direct means that all owners on the chain are built-in and the last has no owner; an operator is the first that is not built-in |
| `Operators.Classify` | backend/internal/operators/detector.go:69-106 | a workload without owners is direct; otherwise the answer is that of the bounded walk from its controlling owner |
| `Operators.WalkOwners` | backend/internal/operators/detector.go:83-105 | an answer is the unbounded walk's, reached within 16 hops over distinct keys; unknown means that there is no such answer |
| `Operators.KeyIdentifies` | backend/internal/operators/detector.go:84 | visited keys coincide exactly for the same object |
| `Operators.CycleNeverEnds` | backend/internal/operators/detector.go:83-105 | a chain that returns to an object has no end, so no answer |
| `Operators.EndedChainDistinct` | backend/internal/operators/detector.go:85-88 | a chain that ends never repeats a key, so the cycle guard costs no answer |
| `Operators.BoundedIsExact` | backend/internal/operators/detector.go:83-105 | the bounded walk gives the unbounded answer whenever that takes fewer than 16 hops, and no other |
| `Operators.ClassifyIsExact` | backend/internal/operators/detector.go:69-106 | the same for a whole workload, from its controlling owner |
| `PromCache.CachingClient.constructor` | backend/internal/agent/prom/cache.go:53-67 | an empty cache; TTLs that are not positive become a minute and a day |
| `PromCache.CachingClient.Acquire` | backend/internal/agent/prom/cache.go:112-130 | the whole new table and the outcome: a hit not past its expiry, the call in flight, or leadership with a fresh call registered |
| `PromCache.CachingClient.StoreLocked` | backend/internal/agent/prom/cache.go:140-157 | at the limit one entry with the earliest expiry goes, otherwise none; then the entry is stored |
| `PromCache.CachingClient.Release` | backend/internal/agent/prom/cache.go:132-138 | the key leaves the in-flight table, the entry is stored, and the call is done |
| `PromCache.CachingClient.Query` | backend/internal/agent/prom/cache.go:69-85 | for a caller that is not interrupted: the answer and the whole new table on a hit, a join and a lead, under the instant key and TTL |
| `PromCache.CachingClient.QueryRange` | backend/internal/agent/prom/cache.go:87-104 | the same under the range key and TTL |
| `PromCache.SameKeyIff` | backend/internal/agent/prom/cache.go:70-89 | two requests share a key exactly when they are the same query in the same bucket, or the same range to the second; kinds never mix |
| `PromCache.BucketIs` | backend/internal/agent/prom/cache.go:166-171 | the exact set of instants of every bucket, before, at and after the epoch |
| `PromCache.SameBucketWithinTTL` | backend/internal/agent/prom/cache.go:166-171 | instants in one bucket are less than two TTLs apart, and less than one on the same side of the epoch |
| `PromCache.BucketStraddlesEpoch` | backend/internal/agent/prom/cache.go:170 | for every TTL the first and the last instant of the bucket of the epoch, nearly two TTLs apart |
| `PromCache.BucketWithinTTLIff` | backend/internal/agent/prom/cache.go:166-171 | the instants of a bucket are less than one TTL apart if and only if it is not that bucket or the TTL is below two seconds |
| `PromRuns.HitKeeps` | backend/internal/agent/prom/cache.go:115-120 | answering from the cache keeps the protocol's invariant |
| `PromRuns.JoinKeeps` | backend/internal/agent/prom/cache.go:123-125 | joining a call in flight keeps the protocol's invariant |
| `PromRuns.LeadKeeps` | backend/internal/agent/prom/cache.go:121-129 | dropping an expired entry and claiming the key keeps the protocol's invariant |
| `PromRuns.UnlockKeeps` | backend/internal/agent/prom/cache.go:132-136 | storing, evicting and clearing the in-flight mark keeps the protocol's invariant |
| `PromRuns.NextKeeps` | backend/internal/agent/prom/cache.go:69-138 | every atomic step of every caller, in any order, keeps the protocol's invariant |
| `PromTheorems.RunKeeps` | backend/internal/agent/prom/cache.go:69-138 | the invariant holds in every reachable state of every interleaving |
| `PromTheorems.AnswersComeFromInnerCalls` | backend/internal/agent/prom/cache.go:69-104 | each answer is what one inner call for the same query returned: the caller's own, one in flight on arrival, or one released at most a TTL before; instants of one query are less than two TTLs apart, and less than one on the same side of the epoch |
| `PromTheorems.TableIsSafe` | backend/internal/agent/prom/cache.go:112-157 | no key is cached and in flight at once, at most max(1, MaxEntries) entries are kept, and each key has at most one running inner call |
| `PromTheorems.AnswerIsKept` | backend/internal/agent/prom/cache.go:136-157 | whatever MaxEntries is, a stored answer is kept: one entry more, or as many as before once max(1, MaxEntries) are there |
| `PromTheorems.RunsAreDefined` | backend/internal/agent/prom/cache.go:69-138 | no run of the callers comes to a step that refers to a missing call, answer or source |
| `PromTheorems.LeaderFinishes` | backend/internal/agent/prom/cache.go:76-84 | a leader can always finish its call by at most four steps, all its own |
| `PromTheorems.WaiterIsServed` | backend/internal/agent/prom/cache.go:71-75 | no waiter is stranded: at most five steps, all of its call's leader or its own, bring its answer, whatever the others did |
| `PromTheorems.DoneIffLeaderWent` | backend/internal/agent/prom/cache.go:69-104 | in every run, whatever the others do, a call is done if and only if its leader has taken the steps it had left, four at most |
| `PromTheorems.WaiterWakesIff` | backend/internal/agent/prom/cache.go:71-75 | in every run a waiter that was not woken still waits for its call, and can be woken if and only if that call's leader has taken those steps |
| `PromTheorems.CallsAreSeparated` | backend/internal/agent/prom/cache.go:112-157 | two inner calls for a key never overlap, and in between an entry stored for it was evicted or found expired |
| `RateLimit.Memory.constructor` | backend/internal/platform/ratelimit/memory.go:29-42 | a new limiter has no buckets; limits must be positive, as the source's panics demand |
| `RateLimit.Memory.MaybeSweep` | backend/internal/platform/ratelimit/memory.go:72-82 | at most once per window exactly the expired buckets go |
| `RateLimit.Memory.Allow` | backend/internal/platform/ratelimit/memory.go:51-68 | the new state and the answer are those of one step of the limiter |
| `RateLimit.Memory.GetQuota` | backend/internal/platform/ratelimit/memory.go:93-105 | limit, remaining and reset time as the bucket says, or the full quota |
| `RateLimit.SweepRefines` | backend/internal/platform/ratelimit/memory.go:51-105 | sweeping changes no answer of Allow and no Quota after any history |
| `RateLimit.AnswersIndependent` | backend/internal/platform/ratelimit/memory.go:51-68 | what a key is told depends on the requests for that key alone |
| `RateLimit.BucketsAccount` | backend/internal/platform/ratelimit/memory.go:51-68 | a bucket's count is the number of admissions since it started, never above the limit, with bounds on the window before |
| `RateLimit.LessThanTwiceTheLimit` | backend/internal/platform/ratelimit/memory.go:51-68 | any closed interval of one window's length holds at most 2·limit-1 admissions of a key |
| `RateLimit.BoundIsTight` | backend/internal/platform/ratelimit/memory.go:51-68 | that bound is met by a history for every limit, window and key |
| `RateLimit.QuotaIsExact` | backend/internal/platform/ratelimit/memory.go:51-105 | of a burst of calls to Allow at one instant, sweeps included, exactly the first `remaining` pass |
| `RateLimit.RetryAfterIsExclusive` | backend/internal/platform/ratelimit/memory.go:63-64 | a denied key is denied up to and including the announced instant, and admitted at every later one |
| `Coalesce.Coalescer.constructor` | backend/internal/ingestion/coalesce/coalesce.go:55-63 | a window that is not positive becomes a day; nothing is remembered |
| `Coalesce.Coalescer.Observe` | backend/internal/ingestion/coalesce/coalesce.go:68-86 | the decision and the new map: incomplete key, coalesce within the window, else dispatch and remember |
| `Coalesce.Coalescer.Sweep` | backend/internal/ingestion/coalesce/coalesce.go:90-102 | exactly the expired entries go, and their number is returned |
| `Coalesce.MapRemembers` | backend/internal/ingestion/coalesce/coalesce.go:68-102 | after any history the map holds the latest dispatch of each key, but for some expired ones |
| `Coalesce.DecisionsFollowTheRule` | backend/internal/ingestion/coalesce/coalesce.go:68-102 | every decision is the one the dispatches alone call for: the latest one of the key, if less than the window old |
| `Coalesce.SweepsDoNotMatter` | backend/internal/ingestion/coalesce/coalesce.go:68-102 | the decision of every call is the same without the sweeps before it |
| `Coalesce.DispatchesAreLogged` | backend/internal/ingestion/coalesce/coalesce.go:68-102 | the dispatches that calls are answered with are exactly those the rule asks for |
| `Coalesce.DispatchesAreSpread` | backend/internal/ingestion/coalesce/coalesce.go:68-86 | two dispatches that calls were answered with for one key are at least the window apart |
| `Telemetry.Ascending` | backend/internal/platform/telemetry/telemetry.go:281-288 | the neighbour test is exactly strict ascent of the whole list |
| `Telemetry.Histogram.constructor` | backend/internal/platform/telemetry/telemetry.go:79-85 | a new histogram counts nothing |
| `Telemetry.Histogram.Observe` | backend/internal/platform/telemetry/telemetry.go:196-208 | per-bucket counts, sum and total become those of the longer history |
| `Telemetry.Histogram.Buckets` | backend/internal/platform/telemetry/telemetry.go:129-141 | each emitted bucket is the number of observations at or below its boundary, buckets never fall, and +Inf equals the count |
| `Telemetry.CumulatesIffOrdered` | backend/internal/platform/telemetry/telemetry.go:130-141 | the running sums are right for every history if and only if no boundary lies below an earlier one |
| `Telemetry.Registry.NewHistogram` | backend/internal/platform/telemetry/telemetry.go:69-88 | refused exactly without strict ascent; a known key gives the old histogram, whatever boundaries are asked for |
| `Onboarding.FindIndex` | backend/internal/onboarding/state.go:38-45 | the position of a stage, -1 for an unknown one |
| `Onboarding.State.Advance` | backend/internal/onboarding/state.go:77-93 | unknown stages and rewinds are refused without effect; otherwise the stage is current and its first arrival is kept |
| `Onboarding.InMemoryStore.Put` | backend/internal/onboarding/store.go:40-48 | stores the record, refuses the empty tenant |
| `Onboarding.Service.Get` | backend/internal/onboarding/store.go:71-84 | creates the record on the first read and nothing else |
| `Onboarding.Service.Transition` | backend/internal/onboarding/store.go:88-100 | reads or creates, advances and writes back; a refused move leaves at most the created record |
| `Onboarding.RecordsTold` | backend/internal/onboarding/store.go:71-100 | after any run a record is decided by the calls alone: a stage is reached exactly when the first call for it or a later one asks for it, and at that call's time |
| `Onboarding.ProgressIsKept` | backend/internal/onboarding/state.go:77-93 | no further run moves a tenant back, forgets or re-times an arrival, adds one at a passed stage or lowers the progress shown |
| `Onboarding.ActivationIsSettled` | backend/internal/onboarding/state.go:97-107 | once first_apply_fix is reached or passed the verdict is fixed; `activated` is final at any time |
| `Onboarding.ActivatedMeans` | backend/internal/onboarding/state.go:97-107 | activated exactly when a call asks for first_apply_fix before any asks for more, within the window of the first call |
| `Onboarding.ArrivalsInOrder` | backend/internal/onboarding/state.go:77-93 | with a clock that never goes back arrival times follow the stage order |
| `Onboarding.ReceiptAfterAgent` | backend/internal/onboarding/state.go:111-118 | the time to the first receipt is never negative |
| `Sorting.SortedUnique` | internal/analyze/diff.go:89 | given elements have one strictly sorted order only, so the map's order cannot show |
| `ValuesDiff.CentsNegate` | internal/analyze/diff.go:162-169 | the price of the opposite change is the opposite price, truncation included |
| `ValuesDiff.Pairs` | internal/analyze/diff.go:53-63 | each name is paired with the last workload of that name in either file |
| `ValuesDiff.Diff` | internal/analyze/diff.go:53-91 | the entries are exactly the names that change, appear or go, each with its deltas, sorted by name |
| `ValuesDiff.MonthlyUSDCentsDelta` | internal/analyze/diff.go:111-117 | the loop gives the sum of the entries |
| `ValuesDiff.SwapFlips` | internal/analyze/diff.go:53-117 | swapping the files negates all deltas and the total and exchanges added and removed |
| `ValuesDiff.SameFileIsEmpty` | internal/analyze/diff.go:79-86 | a file does not differ from itself |
| `ValuesDiff.DiffOfOneChange` | internal/analyze/diff.go:53-91 | changing one workload gives exactly its entry, and none when a later workload has its name |
| `ValuesDiff.CpuFindingIsSaved` | pkg/rules/cpu_overprovisioned.go:31-44 | taking the excess of a CPU finding off the request changes the total by exactly minus the promised cents |
| `ValuesDiff.MemoryFindingIsSaved` | pkg/rules/memory_overprovisioned.go:28-38 | the same for memory |
| `ValuesDiff.HalvedCpuSaves` | pkg/rules/cpu_overprovisioned.go:42-44 | halving a CPU request by integer division changes the total of the diff by minus the promised cents if and only if the request is even |
| `ValuesDiff.HalvedMemorySaves` | pkg/rules/memory_overprovisioned.go:36-38 | the same for memory if and only if the request is even or no full cent lies between the prices of its two halves |
| `Scraper.Scraper.SetPodOwners` | backend/internal/agent/prom/scraper.go:92-99 | the owner map is replaced |
| `Scraper.Scraper.Apply` | backend/internal/agent/prom/scraper.go:120-139 | after a query's samples each workload holds the sum of exactly its samples per metric, and the first one's time |
| `Scraper.Scraper.Scrape` | backend/internal/agent/prom/scraper.go:113-175 | one observation per workload with a sample, with exactly its sums, in strict key order; a failed query contributes nothing and the last error is returned |
| `Scraper.ScrapeConserves` | backend/internal/agent/prom/scraper.go:113-175 | the workloads add up to the owned samples: nothing lost, nothing counted twice |
| `Scraper.ScrapeIsUnique` | backend/internal/agent/prom/scraper.go:158-174 | the order in which the workload map is read back cannot show in the result |
| `Wrap.Wrap` | internal/render/text.go:584-612 | short text stays as it is; otherwise lines hold the words in order, each fits or is one over-long word, and none has room for the next line's first word |
| `Wrap.WrapKeepsWords` | internal/render/text.go:591-611 | splitting the lines into words again gives exactly the words of the text |
| `Wrap.GreedyIsShortest` | internal/render/text.go:594-610 | no other split of the words into lines of that width has fewer lines |
| `Sanitizer.StripLine` | backend/internal/agent/llm/sanitizer/sanitizer.go:112-134 | the scanner keeps a line without a comment, and otherwise what precedes its first unquoted, unescaped `#` less trailing blanks |
| `Sanitizer.StripKeepsPrefix` | backend/internal/agent/llm/sanitizer/sanitizer.go:112-134 | the result is a prefix without a comment, and stripping it again gives it back |
| `Sanitizer.StripLines` | backend/internal/agent/llm/sanitizer/sanitizer.go:110-142 | the text is its stripped lines, with one newline more when it ended with one |
| `Sanitizer.StripTwice` | backend/internal/agent/llm/sanitizer/sanitizer.go:131-141 | stripping a stripped text adds a newline when it ends with one and changes nothing else |
| `Sanitizer.StripOnceIff` | backend/internal/agent/llm/sanitizer/sanitizer.go:110-142 | that happens if and only if the original text ends with a newline, or has several lines and nothing is left of the last one |
| `Sanitizer.TruncateLongFields` | backend/internal/agent/llm/sanitizer/sanitizer.go:147-166 | the cut lines joined again, and the flag exactly when some line was over the limit |
| `Sanitizer.CutTwice` | backend/internal/agent/llm/sanitizer/sanitizer.go:147-166 | the number of lines stays, every line is bounded by limit plus suffix, and cutting again changes nothing |

## Left out

- PromCache.CachingClient.Query: the method, like QueryRange, runs without interruption and returns nothing where a caller waits; interleaved callers are the atomic steps of PromRuns. Inner calls are taken to return; their panics are not modelled.
- Instant TTLs below one second: the code divides by zero for a positive one, and the constructor replaces the others, so results on keys require a TTL of at least a second. Sharing of result slices between callers is not modelled.
- Formatting of times and durations in cache keys: two functions, taken to be injective and free of the separators.
- Wrap-around of 64-bit integers: modelled in the diff search; counters, sums, prices, times and the lengths of texts are unbounded elsewhere. RunMeans takes the lengths of source and diff, the diff counted twice, to add up to less than the largest integer, as texts in memory do.
- Floating point: quantities, histogram values, samples and prices are exact reals; NaN and rounding are not modelled.
- YAML, JSON, the language model, the comment renderer, the dry-run agent and the owner resolver: parameters, given by the answers they return. A document is a tree of values, and mappings with keys that are not strings count as values without content.
- Itoa: sequences of more than 10^16 elements, for which its buffer would be too short, are excluded.
- A hunk keeps operations and payloads as one sequence of edits; the source has two slices that grow together. The old length in a header is parsed and, as in the code, never used.
- A bucket of the limiter and a pair of the values diff are values in their maps; the source stores pointers that nothing else shares.
- Panics of a gate stage: a result of their own (Panicked, GatePanicked) at which the run ends, instead of unwinding.
- Owner and validator metrics, logs, latencies and error texts, `errOrSentinel` among them; errors are distinguished by their cause.
- The single-branch tables of the strategy package, except those that the workflow's confidence and replica checks read.
- Scraper.Scraper.Scrape: the owner map is fixed during one scrape; the source looks owners up sample by sample while another goroutine may swap the map.
- Onboarding.Service.Transition: calls are sequential, because read, change and write-back are not one atomic step in the source. The map of arrival times is a value; the source shares it between the store and the records it hands out.
- Registry keys and label formatting of the telemetry package: a histogram is registered under a given key.
- Wrap.Wrap: characters of one byte, because the source measures words in bytes and the whole text in runes.
- Block comments, regular expressions and redaction in the sanitizer: StripLines starts from the text without block comments.
- Sorting.Sort: stands for the library's sort, for which the modelled elements have only one result.
- HTTP handlers, Postgres stores, Slack, GitHub, Anthropic and Kubernetes clients, the web application, terminal styling and CLI wiring: input and output around other libraries.
- Receipts, authentication and tokens: with the cryptographic primitives abstract only thin wrappers remain.
- Most rule detectors, environment profiles and rollback decisions: single-branch facts.
- Dispatcher drain, file token refresh and the choice of the narrowest LimitRange.
