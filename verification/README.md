# Verified model of the graphed graph compiler and its runners

These Dafny modules model the Rust graph compiler (`src/`) and the Python code that runs what it
compiles (`python/graphed/`), and prove what the two are for. Each module follows one component of the
repository.

**The compiler.** A `GraphStore` interns operator keys into an append-only topological arena. `ReduceWithMode`
takes four passes over it: dead-code elimination by an explicit-stack post-order walk that also orients
symmetric operands, class extraction after equality saturation, hash-consing, and union-find stage
fusion. Their re-indexings compose into a map from recorded nodes to addresses in the reduced graph. The
modules `Walk`, `Dce`, `Merge`, `Components`, `Fusion`, `FusionPass`, `Reduce`, `Store` and `Pipeline` hold the
passes as the source's loops and prove each against a specification function; `Paths` says in which order the
walks finish what they reach, `Rules` which recorded nodes the shared rules are about, `Recone` takes a cone's cone; `Semantics` gives the meaning
of a graph (every semantics is a fold of an operator interpretation over the arena), and the theorems say
that meaning is kept. The value domain and the interpretation `token x values -> value` are arbitrary. What the
rules need of it (`SYMMETRIC_OPS` commute, `IDENTITY_TOKENS` return their input) are the hypotheses `Commuting`
and `Eliding`. The equality-saturation engine is any function from graphs to class assignments;
`Justified` asks that it only merges what the rules make equal, `Saturated` that it merges all of that. FNV
is any hash of token and input keys.

**Two paths, one answer.** `Incremental` holds `IncrementalReducer` as a class; `TermWalk`, `Independence`,
`Canonicity` and `Agreement` prove, through the terms the nodes denote, that reduction depends neither on
recording order nor on unrelated nodes, that the incremental canonicalizer decides the congruence of the rules,
and that both paths build the same graph.

**Shipping and running.** `Params`, `Nodes`, `Text` hold the token grammar; `Bytes`, `Codec`, `Serialize` the
wire format, UTF-8 included, with an imperative writer and a `Reader` class; `Evaluate` the cut, releasing
evaluator; `EndToEnd` runs compile, serialize, deserialize, evaluate and read back as one method. `Tokens` and
`Wire` pin the token text and the byte format in their own characters and numbers; `Recode` is about bytes from
anywhere, `Truncation` about bytes cut short, `Failures` about what a compiled graph's failure says of the recorded one.

**The runners.** `Checkpoint`, `Resume` and `ShuffleResume` model the blob store, its journal, and the two
resumable runners over every crash. Both runners do to their store what a list of jobs does: `Jobs` tells that
from the starting disk alone, `Rerun` and `ShuffleRerun` carry it over to each runner. `Joining` holds the hash-partitioned join, `JoinLaws` how its four kinds relate; `SessionWalk` the memoised walks of
`Session`; `Layout` the concatenation of array layouts; `Parts` part numbering.

Numbers: `u32` and `u64` fields of the format are bounded explicitly, a token's `i64` and hexadecimal
digits are the concrete numerals, floats are their canonical 64-bit keys; node ids, lengths and counts in
memory are unbounded.

## Findings

Where the code does less than a comment says, the code is kept, an input that shows it is given, and the
exact condition is proved.

- Both reducers are said to agree node for node (src/optimizer/incremental.rs:14-19). They build the same graph,
  but their maps agree on a node exactly when the outputs depend on it or on nothing congruent to it:
  `Agreement.MapsAgreeIff`, with `Agreement.TwinPlacedOnlyIncrementally` as the input.
- A torn trailing line of the journal is said to be skipped (python/graphed/checkpoint/store.py:254-263). An append
  does not first end a torn line, so the next record joins it and is lost with it. A completed append is
  readable exactly when the last line was ended, and the one earlier record it can cost is the one a torn line
  still held: `Checkpoint.TornLineSwallowsNext`. A task put and journaled is done exactly when the last line was
  ended or an earlier record of it has its blob: `Checkpoint.RecordedIsDone`; `Checkpoint.RecordLostAfterTear` is
  the input. The resume theorems hold regardless, since a lost record only runs a task again.
- A blob that is present is not read back when it is put (python/graphed/checkpoint/store.py:188-198). With the torn
  line this is why a finished run may leave work for the next. `Rerun.SecondRunIsIdleIff` gives the exact
  condition on the disk the finished run started from: everything was stored already, or no partition's result is
  stuck (its blob there, of its size, not verifying, and read by no lookup) and, past a torn line, every task
  has another record or is recorded by a partition that runs after the first. `ShuffleRerun.SecondShuffleIsIdleIff`
  gives the shuffle's, where a block may also be mended by the listing stored beside a stage's first
  block. `Rerun.TornDiskReruns` and
  `Rerun.CorruptBlobReruns` are inputs that fail it, `Rerun.OldRecordOutlivesTear` one with a torn line that meets it.

## Model

| member | source | states |
|---|---|---|
| `Pipeline.OneShotKeepsMeaning` | src/optimizer/mod.rs:68-118 | Reduction preserves meaning: for every arena, output list, hash and fusion mode, every engine that merges only what the shared rules make equal, and every interpretation in which those rules hold, the reduced outputs have the recorded values, and so has the address of every placed node |
| `Reduce.ReductionKeepsMeaning` | src/optimizer/mod.rs:83-118 | The same for any swaps of commuting operands and any class assignment that is merely sound for the interpretation at hand |
| `Reduce.PlacedIffNeeded` | src/optimizer/mod.rs:111-116 | The composed node map is `None` exactly for the nodes no output depends on |
| `Reduce.ReduceOriented` | src/optimizer/mod.rs:83-118 | The four passes in turn, their remaps composed, compute the specified reduction |
| `Reduce.CollectTemplates` | src/optimizer/mod.rs:93-97 | The loop keeps the first cone node of each token |
| `Reduce.CanonicalTemplated` | src/optimizer/mod.rs:93-97 | Every boundary left after extraction and hash-consing has a template that rebuilds it exactly |
| `Reduce.CanonicalFacts` | src/optimizer/mod.rs:99-104 | After extraction and CSE the graph is topological, its nodes have pairwise distinct shapes, boundaries are told by tokens, and the outputs are where the remap sends them |
| `Reduce.FinishedKeeps` | src/optimizer/mod.rs:99-117 | Extraction, CSE, fusion and map composition keep every output's and every mapped node's value, and map nothing else |
| `Pipeline.ReduceWithMode` | src/optimizer/mod.rs:68-75 | Orienting by structural keys and then reducing is the one-shot reduction |
| `Pipeline.ReductionLands` | src/optimizer/mod.rs:111-116 | Reduced nodes read earlier nodes, landings name reduced nodes, and each output lands on the node the output list names |
| `Pipeline.ReducedDistinct` | src/optimizer/mod.rs:268-287 | The reduced nodes of a stage-free arena are pairwise distinct, in both fusion modes |
| `Pipeline.RebuildIsIdentity` | src/store.rs:215-239 | Re-interning the reduction of a stage-free arena changes no id and no landing |
| `Pipeline.MovedFold` | src/store.rs:217-224 | For any arena, re-interning keeps every node's value, also where it merges nodes |
| `Pipeline.StoredReadsBack` | src/store.rs:215-239 | Rebuilding a faithful reduction into a store keeps values, outputs and landings |
| `Pipeline.SlotsHoldValues` | python/graphed/aggregate.py:461-468 | End to end through re-interning and output deduplication: `values[slot(a)]` is the recorded value of every requested array `a`, even where outputs merge |
| `Pipeline.CompiledLeads` | python/graphed/aggregate.py:782-783 | The distinct slots of the first `m` requested outputs are exactly `0..n-1`, with `n` their number |
| `Pipeline.LeadingSlots` | python/graphed/aggregate.py:782-783 | The same for any rebuilt reduction whose map agrees with its outputs |
| `Pipeline.ReduceWithOutputs` | src/store.rs:260-270 | Refuses exactly a request naming an id the store lacks, with the first such id; otherwise returns a fresh store holding the compiled graph, outputs and map |
| `Pipeline.ArenaHolding` | src/store.rs:291-297 | Refuses the first output id the store does not hold |
| `Pipeline.Cone0` | src/store.rs:275-288 | The level-0 compiler builds the marked cone and its map, with the same refusals |
| `Pipeline.ConeReadsBack` | src/store.rs:272-288 | At level 0 every requested value reads back over any interpretation at all |
| `Walk.PostOrderIsCone` | src/optimizer/mod.rs:192-198 | The post-order holds exactly the nodes the outputs depend on, once each, inputs first |
| `Paths.PostOrderOfOne` | src/optimizer/mod.rs:192-198 | The post-order of one output is that of its inputs, in their order, and then the output |
| `Paths.PostOrderOfMore` | src/optimizer/mod.rs:192-198 | One more output adds, after all that is finished, its own post-order less what is finished: with the case of one output, that is the whole order |
| `Paths.VisitIsUnion` | src/optimizer/mod.rs:209-240 | What a visit adds does not depend on what is finished, but for leaving that out |
| `Paths.ReachedByPath` | src/optimizer/mod.rs:192-198 | A node depends on another exactly along a path of inputs |
| `Paths.SeenByPath` | python/graphed/execute.py:402-418 | A node is seen past stops exactly along a path that goes through none of them |
| `Dce.DeadCodeElimination` | src/optimizer/mod.rs:203-245 | The explicit-stack walk returns the recursive post-order's nodes, relinked, with their outputs and remap |
| `Dce.WalkFrom` | src/optimizer/mod.rs:209-240 | One output's stack walk finishes exactly what the recursive visit finishes, in its order |
| `Dce.AdvanceKeepsFinish` | src/optimizer/mod.rs:209-240 | Advancing over or descending into an input does not change what the stack will have finished |
| `Dce.PopKeepsPath` | src/optimizer/mod.rs:209-240 | Finishing the top frame leaves a stack that is still a path of unfinished nodes with finished prefixes |
| `Dce.KeptFold` | src/optimizer/mod.rs:192-245 | The kept nodes have the values they had, swaps included, wherever the commute rules hold |
| `Dce.SymmetricSwaps` | src/optimizer/mod.rs:176-187 | One pass computes which nodes `orient` would swap by their structural keys |
| `Dce.SwapsOfCommute` | src/optimizer/mod.rs:121-124 | Only nodes a commute rule covers are ever swapped |
| `Graph.SymmetricIsCommuting` | src/optimizer/engine.rs:16-23 | The reducer's test on the node and the engine's pattern on the token are the same rule |
| `Graph.IdentityIsOp` | src/optimizer/mod.rs:131-138 | Only an op can carry an identity token |
| `Rules.IdentityIsNeutralScalar` | src/optimizer/engine.rs:27-32 | A token is an identity token exactly when its node is an op `add` of the scalar 0.0 or `mul` of the scalar 1.0, on either side |
| `Rules.CommutingIsNamed` | src/optimizer/engine.rs:22-23 | A token is a commuting one exactly when its node is a parameterless op of one of the eight names |
| `Rules.SymmetricIsNamed` | src/optimizer/mod.rs:121-124 | The reducer's test holds of exactly those ops with two inputs |
| `Graph.KeysCommute` | src/optimizer/mod.rs:126-156 | Structural keys are invariant under both kinds of rule |
| `Graph.FoldUnique` | src/optimizer/mod.rs:579-610 | The node equations of a topological graph have one solution |
| `Merge.Representatives` | src/optimizer/engine.rs:121-158 | The representative table sends every class to its earliest node |
| `Merge.ExtractClasses` | src/optimizer/engine.rs:121-158 | The extraction loop builds the quotient by first representatives and a total map onto it |
| `Merge.ExtractedMerges` | src/optimizer/engine.rs:121-158 | Two nodes merge exactly when their classes are equal, onto a copy of the class's earliest node reading merged inputs |
| `Merge.Cse` | src/optimizer/mod.rs:268-287 | The hash-consing loop computes the deduplicated graph and its remap |
| `Merge.DedupedMerges` | src/optimizer/mod.rs:268-287 | Hash-consing leaves no two nodes with one token and one input list |
| `Merge.DedupedSameValue` | src/optimizer/mod.rs:268-287 | Under any interpretation, nodes merged by hash-consing have equal values |
| `Merge.MergeFold` | src/optimizer/engine.rs:121-158 | Merging nodes of equal value keeps every node's value |
| `Components.Dsu.Find` | src/optimizer/mod.rs:303-315 | Find returns the root, makes it its own parent, and moves no class |
| `Components.Dsu.Union` | src/optimizer/mod.rs:316-322 | Union makes two classes one under the smaller root and moves no other |
| `Components.Uses` | src/optimizer/mod.rs:417-430 | Each node's consumers in order, and whether it is an output |
| `Components.SingleUseComponents` | src/optimizer/mod.rs:438-460 | The union-find loop labels two nodes alike exactly when they have one single-use head |
| `Components.MaximalComponents` | src/optimizer/mod.rs:473-490 | The backward sweep labels every node with its maximal head |
| `Components.HeadsArePlan` | src/optimizer/mod.rs:325-331 | In both modes: a head heads itself and is its component's largest index, no other member is an output or read outside, and no boundary shares a component |
| `Components.SingleInsideMaximal` | src/optimizer/mod.rs:325-328 | A node and its single-use head have one maximal head |
| `Components.MaximalIsCoarser` | src/optimizer/mod.rs:325-328 | Every single-use component lies inside one maximal component |
| `Components.SingleUseFuses` | src/optimizer/mod.rs:432-460 | In single-use mode a node joins another's component exactly when it is an op, no output, read once in all, and by an op; then it joins its reader's |
| `Components.MaximalFuses` | src/optimizer/mod.rs:462-490 | In maximal mode a node joins another's component exactly when it is an op, no output, and read, only by ops and only by ops of one component; then it joins theirs |
| `Fusion.OutsideIsBelow` | src/optimizer/mod.rs:332-335 | What a component reads from outside is a head with a smaller index, so head order is topological |
| `Fusion.ReadOutsideIsHead` | src/optimizer/mod.rs:325-331 | A node read from outside its component is that component's head |
| `Fusion.HeadIsLastMember` | src/optimizer/mod.rs:329-331 | A component's last member is its head, so the stage's value is its last member's |
| `Fusion.FusedFold` | src/optimizer/mod.rs:336-410 | Fusion is well formed and every reduced node has the value its head had, stages run member by member |
| `Fusion.LandingHoldsValue` | src/optimizer/mod.rs:363-385 | Every node's landing, a reduced id or a member of a stage, holds the node's value |
| `Fusion.FusedDistinct` | src/optimizer/mod.rs:498-534 | Over a hash-consed graph without recorded stages, fused nodes are pairwise distinct |
| `Fusion.SameStageSameHead` | src/optimizer/mod.rs:498-534 | Two components never build the same stage |
| `FusionPass.StageFusion` | src/optimizer/mod.rs:336-410 | The pass over grouped components in head order returns the specified nodes, outputs and landings |
| `FusionPass.FuseStage` | src/optimizer/mod.rs:498-534 | The slot table opened in first-seen order builds the specified stage, every lookup defined |
| `FusionPass.OrderComponents` | src/optimizer/mod.rs:341-362 | Sorting component labels by their largest member puts them in head order |
| `FusionPass.GroupMembers` | src/optimizer/mod.rs:341-362 | Grouping by label gives each component's members, ascending |
| `FusionPass.RefIsFinal` | src/optimizer/mod.rs:498-534 | A slot keeps its number from the moment it opens |
| `Fusion.SlotsFirstSeen` | src/optimizer/mod.rs:498-534 | A stage's slots are the components its members read from outside, each once, in the order they are first read |
| `Semantics.MemberValuesUnique` | python/graphed/execute.py:345-363 | A stage's member equations have one solution |
| `Semantics.MeaningFollowsRules` | src/optimizer/engine.rs:16-32 | A backend that respects the rules gives stages and boundaries a meaning that does |
| `Congruence.CongruentIffSameNorm` | src/optimizer/engine.rs:16-32 | Two terms are derivably equal by the rules exactly when their normal forms agree |
| `Congruence.DerivationKeepsValue` | src/optimizer/engine.rs:16-32 | Every derivation keeps value wherever the rules hold |
| `Congruence.JustifiedValues` | src/optimizer/engine.rs:50-58 | Classes justified by the rules are sound under every interpretation that respects them |
| `Store.GraphStore.Intern` | src/store.rs:81-96 | One id per key: a held key keeps its id, a new one goes last, the first unheld input id is refused and nothing changes |
| `Store.GraphStore.MarkOutput` | src/store.rs:166-175 | Marks an id once, in first-marked order, or refuses one the store lacks |
| `Store.FromReduced` | src/store.rs:215-239 | Re-interns, marks and renumbers the map by one and the same remap |
| `Store.Reintern` | src/store.rs:217-224 | The re-intern loop computes the specified nodes and remap |
| `Store.ReinternIsIdentity` | src/store.rs:230-237 | Re-interning pairwise distinct nodes is the identity |
| `Incremental.IncrementalReducer.Step` | src/optimizer/incremental.rs:68-79 | The state after a step depends on all nodes consumed and not on how they were cut into steps; the work counted is the delta; the first unknown input stops it after the nodes before |
| `Incremental.IncrementalReducer.CanonicalInputs` | src/optimizer/incremental.rs:70-73 | Inputs go where their nodes went; the first not yet consumed is refused |
| `Incremental.IncrementalReducer.CanonicalizeNode` | src/optimizer/incremental.rs:85-117 | One node is dropped, oriented or hash-consed as specified, and the table stays the inverse of the nodes |
| `Incremental.IncrementalReducer.Finalize` | src/optimizer/incremental.rs:126-144 | Reduces the canonical arena and answers in recorded ids, refusing exactly unknown outputs |
| `Incremental.CanonTracks` | src/optimizer/incremental.rs:85-117 | After any prefix: canonical nodes are distinct, oriented, no identities; every recorded node went to itself over canonical inputs or where its input went; and the canonical node's key is the one-shot structural key |
| `Incremental.OrientedWires` | src/optimizer/incremental.rs:98-104 | The incremental path swaps exactly the operands the one-shot path swaps |
| `Incremental.KeyOfOriented` | src/optimizer/incremental.rs:111-112 | The key of a symmetric op does not depend on its operand order |
| `Canonicity.CanonKeepsValues` | src/optimizer/incremental.rs:14-19 | Every recorded node has its canonical node's value wherever the rules hold |
| `Canonicity.CanonicalIdsAreSound` | src/optimizer/incremental.rs:85-117 | Whatever the hash, nodes given one canonical id are congruent |
| `Canonicity.CanonNormsInjective` | src/optimizer/incremental.rs:85-117 | With distinct keys no two canonical nodes have one normal form |
| `Canonicity.CanonicalIdsDecideCongruence` | src/optimizer/incremental.rs:85-117 | Without key collisions two recorded nodes share a canonical id exactly when the rules make them equal |
| `Canonicity.InjectiveHashKeepsKeysApart` | src/optimizer/mod.rs:126-156 | Under a hash that never collides no two canonical nodes share a key, whatever was recorded |
| `TermWalk.PostOrderProjects` | src/optimizer/mod.rs:192-198 | The terms of the post-order, each when first met, are a post-order over terms alone |
| `Independence.ConeIsTermGraph` | src/optimizer/mod.rs:196-198 | The cone of an interned arena is the graph of its outputs' terms; every node is placed where its term is listed |
| `Independence.ConeIgnoresRecordingOrder` | src/optimizer/mod.rs:196-198 | Two stores asked for the same terms have identical cones, whatever else they hold and in whatever order |
| `Independence.ReductionIgnoresRecordingOrder` | src/optimizer/mod.rs:764-800 | So are their reductions and the landings of equal terms |
| `Independence.ConeIsIdempotent` | src/store.rs:464-490 | Over an interned arena, taking the cone of a cone changes nothing |
| `Recone.OrientedConeIsIdempotent` | src/optimizer/mod.rs:203-245 | Over any arena, dead-code elimination of its own result changes nothing, with the swaps recomputed on that result |
| `Recone.PlainConeIsIdempotent` | src/store.rs:275-288 | Over any arena, repeated keys included, the same without orientation |
| `Recone.RewalkIsInOrder` | src/optimizer/mod.rs:192-198 | Walked again through its renumbered inputs, a post-order finishes its nodes in the order it lists them |
| `Recone.OrientedOnce` | src/optimizer/mod.rs:176-187 | No node of an oriented cone is left to swap, keys computed on the cone |
| `Independence.DenotesInjective` | src/store.rs:81-96 | Distinct nodes of an interned arena denote distinct terms |
| `Agreement.IncrementalEqualsOneShot` | src/optimizer/incremental.rs:14-19 | With exact classes and no key collisions, stepping and finalizing gives the one-shot nodes and outputs, and the one-shot landing of every node the outputs depend on |
| `Agreement.IncrementalPlaces` | src/optimizer/incremental.rs:137-142 | The incremental map places a node exactly when an output depends on some node congruent to it |
| `Agreement.MapsAgreeIff` | src/optimizer/incremental.rs:137-142 | With exact classes the two maps agree on a node exactly when an output depends on it, or on nothing congruent to it |
| `Agreement.IncrementalKeepsMeaning` | src/optimizer/incremental.rs:126-144 | For any hash and any engine that merges only what the rules make equal, finalize's outputs and every node it places, needed or not, have the recorded values |
| `Agreement.FinalFormLands` | src/optimizer/incremental.rs:126-144 | Finalize's landings name its nodes, and each output lands on the node its output list names |
| `Agreement.IncrementalReadsBack` | python/graphed/aggregate.py:461-468 | After finalize's answer is re-interned and its outputs deduplicated, every requested array's slot and every landing holds the recorded value |
| `Agreement.BothPathsCompileAlike` | src/optimizer/incremental.rs:14-19 | With exact classes and no key collisions the stores rebuilt from the two paths have the same nodes and outputs, so the same bytes |
| `Agreement.TwinPlacedOnlyIncrementally` | src/optimizer/incremental.rs:283-310 | A commuted twin of the output is placed incrementally and not by one-shot |
| `Agreement.ConeQuotient` | src/optimizer/mod.rs:196-198 | A labelled cone quotiented by exactly its labels is the graph of its label order, and each cone node goes to its label's place |
| `Agreement.SameFused` | src/optimizer/mod.rs:336-410 | The rebuilt nodes do not depend on which nodes the templates were collected from |
| `Params.UnescapeEscape` | src/param.rs:72-85 | The four sequential replacements of unescaping invert those of escaping on every string |
| `Params.EscapeInjective` | src/param.rs:72-77 | Escaping is injective |
| `Params.EscapedIsSeparatorFree` | src/param.rs:70-77 | Escaped text holds no separator |
| `Params.IntRoundTrip` | src/param.rs:44-55 | A signed 64-bit numeral parses back |
| `Params.HexRoundTrip` | src/param.rs:45-58 | A padded 16-digit hexadecimal parses back |
| `Params.ValueRoundTrip` | src/param.rs:42-67 | Decoding a value's token gives the value back, for all four kinds |
| `Params.MapRoundTrip` | src/param.rs:147-167 | Decoding a map's token gives the map back, whatever its keys and strings hold |
| `Params.MapTokenInjective` | src/param.rs:143-153 | Equal map tokens mean equal maps |
| `Params.FloatKeysAgree` | src/param.rs:30-37 | Two floats share a key exactly when their bits are equal or both have an exponent of all ones and a fraction that is not zero |
| `Params.NewMapIsStableSort` | src/param.rs:128-132 | Making a map sorts its entries by key, keeps every one, and keeps those of one key in order |
| `Tokens.CodeIsPercentEncoding` | src/param.rs:70-77 | A separator is escaped as a percent sign and its code's two hexadecimal digits |
| `Tokens.EscapedChar` | src/param.rs:70-77 | Escaping one character codes it exactly when it is one of the four separators |
| `Tokens.KindLetter` | src/param.rs:42-53 | A value's token starts with its kind's letter |
| `Tokens.ValueText` | src/param.rs:42-49 | After the letter: a signed decimal numeral, a float's bits in sixteen hexadecimal digits, true or false, or text free of separators that unescapes to it |
| `Tokens.KindWord` | src/node.rs:118-169 | A node's token is its kind's word, alone or before a bar |
| `Tokens.StageExample` | src/node.rs:388-395 | The token of a stage of one escaped member reading one slot |
| `Nodes.TokenIsOperator` | src/node.rs:118-169 | Across all seven kinds, tokens are equal exactly when the operators are |
| `Nodes.KeyIsTokenAndInputs` | src/node.rs:115-117 | A key is exactly its token and its inputs, except that a source has none |
| `Nodes.ParseOpTokenInverts` | src/node.rs:274-287 | Parsing the token of any op or reduction gives its kind, name and parameters back |
| `Nodes.MembersTokenInjective` | src/node.rs:143-160 | The `tok=refs;...` body of a stage determines its members |
| `Nodes.SameOperatorSameToken` | src/node.rs:171-209 | Replacing inputs keeps the token |
| `Evaluate.LastConsumers` | python/graphed/execute.py:385-399 | The table lists under a consumer exactly the values it reads, nobody later reads, and nobody wants |
| `Evaluate.IrCone` | python/graphed/execute.py:402-418 | The worklist finds exactly the nodes the roots depend on without passing a stop |
| `Evaluate.EvaluateStage` | python/graphed/execute.py:345-363 | A stage returns its last member's value or its first member's failure, holding after each member only what is still to be read |
| `Evaluate.EvaluateNode` | python/graphed/execute.py:291-321 | One dispatch per node, a stage's members inline; a failure carries its node, the member that failed, none before it failing, or no member outside a stage, and that dispatch's cause |
| `Evaluate.Drop` | python/graphed/execute.py:323-325 | Dropping released values drops those and no others, none of them still to be read |
| `Evaluate.EvaluateIr` | python/graphed/execute.py:249-326 | Runs exactly the nodes of the cut; returns what keeping everything would, no running node failing, or the address and cause of the first running node that fails and of its first failing member; never reads a dropped slot; and after each node holds, of all that was read, only what is wanted or still to be read |
| `Evaluate.FirstFaultIs` | python/graphed/execute.py:262-284 | A run fails at the first running node that fails, with its member and cause, and succeeds when none does |
| `Evaluate.FirstFailingUnique` | python/graphed/execute.py:262-284 | That address and cause are the only ones a run can report |
| `Evaluate.RunsByPath` | python/graphed/execute.py:275-290 | A node runs exactly when it is not given and, under a cut, some wanted node depends on it along a path through no given node |
| `Evaluate.HeldIsLive` | python/graphed/execute.py:323-325 | A value still held after a node is wanted, read again later, or was never read |
| `Evaluate.ValuesOfRun` | python/graphed/execute.py:286-325 | A run works with the given values, and for every other node with what its operator, or its stage's last member, makes of its inputs' values |
| `Evaluate.CutEqualsPlain` | python/graphed/execute.py:262-284 | With true given values, where evaluating everything succeeds the cut evaluator returns the same, and where the cut fails evaluating everything fails at that node or before |
| `Evaluate.CutFailsLess` | python/graphed/execute.py:262-284 | The cut's first failure is no earlier than the plain one's |
| `Evaluate.CutKeepsValues` | python/graphed/execute.py:262-284 | The cut computes the wanted values evaluating everything computes |
| `Evaluate.GivenTruthKeepsValues` | python/graphed/execute.py:262-284 | True given values override nothing |
| `Evaluate.WantedHeld` | python/graphed/execute.py:326 | Every wanted value is still held at the end |
| `Evaluate.SkippedHeld` | python/graphed/execute.py:283-290 | A skipped node anyone still reads is a given one |
| `EndToEnd.Compute` | python/graphed/execute.py:76-138 | Compile, write bytes, read them, evaluate and read back by slot: the recorded value of every requested array; or the address and cause of the first failing dispatch of the compiled graph; or an encode error naming a length that does not fit 32 bits |
| `Failures.CompiledFailsIff` | python/graphed/execute.py:291-321 | Where failures respect the rules, running a compiled graph fails exactly when some recorded node the outputs depend on fails on the values it reads |
| `Failures.NoneIffFails` | python/graphed/execute.py:291-321 | With failures as values, a recorded node has none exactly when it depends on a node that fails, and its plain value otherwise |
| `Failures.PartialFollowsRules` | src/optimizer/engine.rs:16-32 | A backend whose failures respect the rules still respects them with its failures as values |
| `Failures.AddressIsLanding` | src/optimizer/mod.rs:363-385 | Every reduced node, and every member of a stage, is where some recorded node landed |
| `EndToEnd.ReducedRunnable` | src/optimizer/mod.rs:498-534 | Reducing a runnable graph gives a runnable one: stage refs name slots and earlier members |
| `EndToEnd.CompiledRunnable` | src/store.rs:215-239 | So does rebuilding it in a store |
| `EndToEnd.BytesIgnoreRecordingOrder` | src/store.rs:385-423 | Requests for the same terms compile to identical bytes |
| `Bytes.Utf8RoundTrip` | src/serialize.rs:272-278 | A string's UTF-8 decodes to it |
| `Bytes.Utf8Exact` | src/serialize.rs:272-278 | Nothing but a string's own UTF-8 decodes to it |
| `Bytes.LeRoundTrip` | src/serialize.rs:80-85 | Little-endian numbers read back |
| `Bytes.ListReads` | src/serialize.rs:279-307 | A counted list reads back, element readers given |
| `Codec.ParamsReads` | src/serialize.rs:96-123 | Written parameters read back |
| `Codec.MembersRead` | src/serialize.rs:381-408 | Written stage members read back, member refs checked against earlier members |
| `Codec.NodeReads` | src/serialize.rs:309-379 | Every node kind reads back wherever it stands in a buffer |
| `Codec.OnlyLongFails` | src/serialize.rs:86-89 | Writing fails only with the length of something that does not fit 32 bits |
| `Serialize.SerializeWith` | src/serialize.rs:142-236 | The writer's pushes produce the specified bytes or its first error |
| `Serialize.PutNode` | src/serialize.rs:150-230 | One node record is appended as specified, or its first error |
| `Serialize.Reader.Take` | src/serialize.rs:249-254 | Takes bytes inside the buffer or reports truncation |
| `Serialize.Reader.String` | src/serialize.rs:272-278 | Reads a counted UTF-8 string |
| `Serialize.Reader.Params` | src/serialize.rs:279-295 | Reads and sorts parameters, refusing unknown tags |
| `Serialize.Reader.Inputs` | src/serialize.rs:296-307 | Reads ids, refusing the first not below the bound |
| `Serialize.Reader.StageMembers` | src/serialize.rs:381-408 | Reads members, refusing forward member refs |
| `Serialize.Reader.Node` | src/serialize.rs:309-379 | The reader finds exactly the node or error the grammar assigns to the position, and moves past it |
| `Serialize.Deserialize` | src/serialize.rs:414-435 | Any bytes give a valid store or the error the grammar assigns, without reading out of bounds |
| `Serialize.DecodeEncode` | src/serialize.rs:411-413 | Reading a written store gives its nodes under their ids, and the flagged outputs once each |
| `Serialize.EncodeDecodeEncode` | src/serialize.rs:411-413 | Writing what was read is byte-identical |
| `Serialize.BytesDetermineGraph` | src/serialize.rs:133-146 | Equal bytes mean equal nodes and outputs |
| `Serialize.NodesRead` | src/serialize.rs:421-426 | Interning the written nodes in order gives each its own id back |
| `Truncation.PrefixIsTruncated` | src/serialize.rs:509-515 | Every proper prefix of a written store is refused as truncated, and a written store followed by anything reads back |
| `Truncation.OnlyTheGraphIsRead` | src/serialize.rs:411-435 | The same for any accepted bytes: cut before the graph's end they are truncated, and what follows its end changes nothing |
| `Truncation.NodeCuts` | src/serialize.rs:309-379 | Within the first `k` bytes alone a node reads the same if it ends inside them, and as truncated if not |
| `Wire.KindByte` | src/serialize.rs:21-33 | A written node's first byte, kind by kind |
| `Wire.KindByteRead` | src/serialize.rs:309-379 | Only those seven numbers start a node, each its own kind; another is refused with its number |
| `Wire.ValueOnTheWire` | src/serialize.rs:96-123 | A parameter value's bytes: its kind's number, then two's complement or float bits little-endian, a 0 or 1, or counted UTF-8 |
| `Wire.ValueByteRead` | src/serialize.rs:279-295 | Only four numbers start a value; another is refused with its number |
| `Wire.RefRead` | src/serialize.rs:381-408 | A reference reads as a slot or an earlier member; a later member or another number is refused by name |
| `Wire.InputRead` | src/serialize.rs:296-307 | An input reads as an earlier node; another is refused by its id |
| `Wire.RefOnTheWire` | src/serialize.rs:218-226 | A reference's five bytes |
| `Wire.LeDigit` | src/serialize.rs:80-85 | Byte `k` of a number is its `k`-th digit to base 256 |
| `Wire.CharOnTheWire` | src/serialize.rs:91-95 | A character's bytes have the lengths, marks and bits of UTF-8 |
| `Wire.Magic` | src/serialize.rs:414-420 | What is written starts with GIR1, and what does not start so is refused for that |
| `Wire.SourceExample` | tests/frozen/core/m40/test_join_serialize.py:84-101 | The frozen bytes of a source with one text parameter |
| `Wire.OpExample` | tests/frozen/core/m40/test_join_serialize.py:84-101 | The frozen bytes of an op with one integer parameter and one input |
| `Wire.PlainExamples` | src/serialize.rs:167-206 | The bytes of a reduction, an exchange and a join without parameters |
| `Wire.StageExample` | src/serialize.rs:207-230 | The bytes of a stage of one member reading one slot |
| `Wire.DescriptorOnTheWire` | src/serialize.rs:177-197 | A descriptor is its five texts in order, each after its length, and its reference after a 1, or a 0 |
| `Wire.GraphExample` | tests/frozen/core/m40/test_join_serialize.py:84-101 | The frozen frame around the nodes |
| `Recode.AcceptedIsWritable` | src/serialize.rs:411-435 | Any bytes accepted, from whatever writer, give an interned store that can be written, and writing then reading it gives it back |
| `Recode.NodeFits` | src/serialize.rs:309-379 | A node found anywhere in any bytes can be written and names only earlier inputs |
| `Recode.NodesFit` | src/serialize.rs:421-426 | Interning whatever nodes the bytes hold keeps the store interned and writable |
| `Checkpoint.CheckpointStore.Put` | python/graphed/checkpoint/store.py:188-198 | Names a blob by its hash, writing only one of another size, absent, or known bad |
| `Checkpoint.CheckpointStore.Get` | python/graphed/checkpoint/store.py:210-233 | Returns a blob only if its bytes hash to its name, and remembers one that does not |
| `Checkpoint.CheckpointStore.RecordDone` | python/graphed/checkpoint/store.py:236-246 | Appends a record, continuing a torn line if there is one; every disk on the way is named |
| `Checkpoint.CheckpointStore.RecordDead` | python/graphed/checkpoint/store.py:265-267 | Appends to the dead letters and changes nothing else |
| `Checkpoint.CheckpointStore.Completed` | python/graphed/checkpoint/store.py:254-263 | Replays the journal against the blobs present |
| `Checkpoint.ReplayIsLatest` | python/graphed/checkpoint/store.py:92-114 | A task is done exactly when some readable record of it has its blob present, and then by the latest such record |
| `Checkpoint.PutKeepsVerified` | python/graphed/checkpoint/store.py:188-198 | A put never spoils a blob that verifies |
| `Checkpoint.PutStores` | python/graphed/checkpoint/store.py:188-198 | A put leaves its result readable exactly unless a blob of its name and size is there that does not verify and is not known to be bad, and touches no other blob |
| `Checkpoint.AppendCanTear` | python/graphed/checkpoint/store.py:294-309 | An append can be cut short with nothing of its record readable, or with all of it but its end |
| `Checkpoint.TornLineSwallowsNext` | python/graphed/checkpoint/store.py:294-309 | For every journal and record: a completed append is readable exactly when the last line was ended, and it costs exactly the record a torn last line still held |
| `Checkpoint.AppendReplays` | python/graphed/checkpoint/store.py:92-114 | What the replay gives after an append: what it gave, and the new record; or, past a torn line, what it gave without that line |
| `Checkpoint.RecordedIsDone` | python/graphed/checkpoint/store.py:236-263 | After put and append a task is done exactly when the last line was ended or an earlier readable record of it has its blob |
| `Checkpoint.RecordLostAfterTear` | python/graphed/checkpoint/store.py:294-309 | An input: on a disk holding one torn line, a task put and journaled is not done |
| `Resume.RunResumable` | python/graphed/checkpoint/runner.py:108-151 | The loop's value, report, disk, known-bad set and every disk passed through are the specified run's; it stops exactly when more partitions failed than the budget allows, so never without a budget or when no more fail in the plan; and a run that is not stopped accounts for every partition once |
| `Resume.RunTask` | python/graphed/checkpoint/runner.py:118-144 | One partition is reused, committed or buried as specified, and the budget stops the run |
| `Resume.ReportAddsUp` | python/graphed/checkpoint/runner.py:118-144 | The same of every prefix of the loop, on any store |
| `Resume.RunIsReduction` | python/graphed/checkpoint/runner.py:108-151 | From any honest disk: stopped exactly when more partitions fail than the budget allows; otherwise the value is `finalize` of the succeeding results combined left to right in task order, or of `empty`, and there is a dead letter for each failing task, in order |
| `Resume.DeadLetters` | python/graphed/checkpoint/runner.py:126-136 | The dead letters of any prefix of a run are the failing tasks in order, as many as reported |
| `Resume.BlobsComeFirst` | python/graphed/checkpoint/store.py:236-246 | A result is stored before it is journaled: wherever a run is cut short, every record on disk has its blob |
| `Resume.ResumeEqualsUninterrupted` | python/graphed/checkpoint/runner.py:108-151 | From any honest disk a run folds exactly the uninterrupted partials, each once in task order, stops where it stops, and leaves only honest disks |
| `Resume.CrashesChangeNothing` | python/graphed/checkpoint/runner.py:75-151 | After any number of crashes between any two store operations, with any loss of blobs, a finished run has the uninterrupted value, the reduction of the succeeding results |
| `Resume.CorruptionStaysHonest` | python/graphed/checkpoint/store.py:210-233 | Losing or corrupting blobs keeps a disk honest |
| `Resume.StoredIsOwn` | python/graphed/checkpoint/runner.py:158-163 | A stored partial is the partition's own |
| `Resume.FinishedTasksAreSkipped` | python/graphed/checkpoint/runner.py:118-124 | Only partitions whose stored partial was missing at the start run |
| `Jobs.SecondWorkIsIdleIff` | python/graphed/checkpoint/runner.py:118-144 | Done again on the disk they left, a list of jobs runs none exactly when, on the starting disk, everything was stored, or no result was stuck and every task stays recorded |
| `Jobs.WorkTracks` | python/graphed/checkpoint/runner.py:118-144 | What jobs do told from their starting disk alone: which run, the journal, and every blob, verifying if it verified or was mended and otherwise untouched |
| `Jobs.JournalRecords` | python/graphed/checkpoint/store.py:294-309 | After any commits the journal records what it recorded but for a torn line, and the committed tasks but for the first past a torn line |
| `Jobs.RecordedIff` | python/graphed/checkpoint/store.py:254-263 | A task is recorded after the work exactly when the starting disk says it stays recorded |
| `Jobs.MendedIff` | python/graphed/checkpoint/store.py:188-198 | A result's blob verifies in the end exactly when it is not stuck |
| `Jobs.IdleIff` | python/graphed/checkpoint/runner.py:118-124 | No job runs exactly when every result is stored |
| `Rerun.SecondRunIsIdleIff` | python/graphed/checkpoint/runner.py:118-144 | Run again after a finished run, the runner executes nothing exactly when, on the starting disk, everything was stored, or no result is stuck and every task stays recorded |
| `Rerun.AfterIsWork` | python/graphed/checkpoint/runner.py:118-144 | As long as it goes, a run executes the partitions its jobs do and leaves the blobs, journal and known-bad set they leave |
| `Rerun.IdleRunIff` | python/graphed/checkpoint/runner.py:118-124 | A finished run executes nothing exactly when every succeeding partition's result is stored |
| `Rerun.FinishedRunLeavesNothing` | python/graphed/checkpoint/runner.py:118-124 | So after a finished run on an intact store another executes nothing |
| `Rerun.TornDiskReruns` | python/graphed/checkpoint/store.py:294-309 | An input: after a crash inside the first append, the run after a finished run executes its task again |
| `Rerun.CorruptBlobReruns` | python/graphed/checkpoint/store.py:188-198 | An input: so does one that finds the result's blob corrupted at its right size |
| `Rerun.OldRecordOutlivesTear` | python/graphed/checkpoint/store.py:92-114 | An input: a torn line costs a new record, and the task's earlier record still serves |
| `ShuffleResume.RunShuffleResumable` | python/graphed/checkpoint/runner.py:212-286 | The two-phase loops compute the specified run and return the last stage's digests; what the stages receive is pinned by the next four rows |
| `ShuffleResume.FlattenedIsConcat` | python/graphed/checkpoint/runner.py:250-251 | A stage receives the blocks of its input stages, one input stage after the other in the order it lists them, each in task order; so do the digests |
| `ShuffleResume.ReceivedAt` | python/graphed/checkpoint/runner.py:250-251 | Block `j` of the `k`-th input stage stands after all blocks of the input stages before it |
| `ShuffleResume.BlocksAreProcessed` | python/graphed/checkpoint/runner.py:248-286 | Every block is its stage's process of its task and those blocks |
| `ShuffleResume.BlocksUnique` | python/graphed/checkpoint/runner.py:248-286 | Which leaves one choice of blocks |
| `ShuffleResume.BlobsComeFirst` | python/graphed/checkpoint/runner.py:268-276 | A block and its listing are stored before the block is journaled, wherever a shuffle is cut short |
| `ShuffleResume.RunStage` | python/graphed/checkpoint/runner.py:248-286 | One stage's tasks in order, over the payloads of its input stages |
| `ShuffleResume.ResumeEqualsUninterrupted` | python/graphed/checkpoint/runner.py:248-286 | From any honest disk a run ends with the uninterrupted blocks and digests |
| `ShuffleResume.FinishedTasksAreSkipped` | python/graphed/checkpoint/runner.py:248-286 | A task journaled with a block that verified at the start is not executed; each task is executed at most once, in plan order; executed and skipped add up to all tasks |
| `ShuffleResume.CrashesChangeNothing` | python/graphed/checkpoint/runner.py:212-286 | However often it crashed, a finished shuffle returns the uninterrupted digests |
| `ShuffleRerun.SecondShuffleIsIdleIff` | python/graphed/checkpoint/runner.py:212-286 | Run again, a shuffle executes nothing exactly when, on the disk the first run started from, every block was stored, or no block was stuck and every task stays recorded |
| `ShuffleRerun.IdleShuffleIff` | python/graphed/checkpoint/runner.py:212-286 | A shuffle executes nothing exactly when every block is stored |
| `ShuffleRerun.StagesAreWork` | python/graphed/checkpoint/runner.py:248-286 | Stage by stage, a shuffle executes the tasks its jobs do and leaves the blobs, listings included, the journal and known-bad set they leave |
| `ShuffleRerun.ListingIsOrdered` | python/graphed/checkpoint/runner.py:269-271 | The listing names the digests of the blocks in the order the stage receives them; a stage that receives none has no listing |
| `Joining.MatchIndices` | python/graphed/awkward/join.py:54-89 | The index loops return the specified aligned pairs, a miss as -1; which pairs each kind has is pinned by `JoinLaws.PairsByHow` |
| `Joining.PairsAreRelated` | python/graphed/awkward/join.py:54-89 | A pair is returned exactly when its keys match, or it is the miss `how` keeps |
| `Joining.BuildPairsInOrder` | python/graphed/awkward/join.py:54-89 | Pairs ascend by build row then probe row, nothing twice |
| `Joining.ProbeMissesInOrder` | python/graphed/awkward/join.py:54-89 | Probe misses follow in probe order |
| `JoinLaws.PairsByHow` | python/graphed/awkward/join.py:54-89 | Kind by kind: every match is a pair; a build miss is one exactly for left and outer, a probe miss exactly for right and outer |
| `JoinLaws.PairsDistinct` | python/graphed/awkward/join.py:54-89 | No pair twice |
| `Joining.Join` | python/graphed/awkward/join.py:92-119 | Taking both sides by the indices gives the joined rows, a miss as no row |
| `Joining.JoinedIsSum` | python/graphed/awkward/join.py:54-89 | A join's rows are what each left row contributes plus each unmatched right row |
| `JoinLaws.JoinIsInnerAndLone` | python/graphed/awkward/join.py:82-86 | As multisets: a left join is the inner join and the lone left rows, a right join the inner join and the lone right rows, an outer join all three; so inner is contained in every kind and every kind in outer |
| `JoinLaws.JoinIsMirrored` | python/graphed/awkward/join.py:82-86 | A right join is the left join of the swapped sides with each row flipped; inner and outer joins are their own mirror images |
| `Joining.GatheredIsRouted` | python/graphed/shuffle.py:298-317 | Splitting a side into map tasks changes no destination's rows |
| `Joining.MatchingIsLocal` | python/graphed/awkward/shuffle.py:42-56 | All rows of a key go where the key goes |
| `Joining.JoinAtDest` | python/graphed/shuffle.py:298-317 | One destination's join is what the rows routed there contribute to the whole join |
| `Joining.DistributedJoin` | python/graphed/shuffle.py:298-317 | For any split of both sides, any routing of keys and all four `how`, the rows of the per-destination joins are the rows of the whole join, as a multiset |
| `SessionWalk.WalkNodes` | python/graphed/session.py:983-1013 | The stack walk returns the recursive value from any memo of true values, and calls handlers in the root's post-order, memoised nodes having no inputs, less the memoised |
| `SessionWalk.CallOrder` | python/graphed/session.py:983-1013 | A walk past a memo, told without walking: the post-order of the wiring cut off at what is memoised |
| `SessionWalk.CalledOnce` | python/graphed/session.py:983-1013 | Each called node is called once, was not in the memo, and comes after all its inputs |
| `SessionWalk.CalledAreUnmemoised` | python/graphed/session.py:983-1013 | The nodes called are exactly those the root reaches without passing a memoised one |
| `SessionWalk.InputsFirst` | python/graphed/session.py:541-556 | The first pass lists every node to resolve after the inputs it waits for |
| `SessionWalk.ReachableSources` | python/graphed/session.py:535-563 | Returns exactly the sources the node reaches, and the cache stays true |
| `SessionWalk.SourcesAreReached` | python/graphed/session.py:557-563 | The recursive source sets are reachability |
| `Layout.JoinedHolds` | python/graphed/awkward/shuffle.py:89-158 | The rebased layout is well formed and holds each part's rows at the part's place, for records, lists, offsets, regular, indexed, option, unmasked and union layouts nested in any way |
| `Layout.JoinConcatenatesRows` | python/graphed/awkward/shuffle.py:161-170 | The rows of the join are the concatenation of the parts' rows |
| `Layout.SliceRows` | python/graphed/awkward/shuffle.py:89-158 | Slicing a layout of any form slices its rows |
| `Layout.ListHolds` | python/graphed/awkward/shuffle.py:77-87 | List bounds rebased by content starts name the same rows |
| `Layout.ListOffsetHolds` | python/graphed/awkward/shuffle.py:89-158 | Offsets rebuilt from list lengths name the same rows |
| `Layout.RegularHolds` | python/graphed/awkward/shuffle.py:89-158 | Fixed-size lists keep their rows, also of size zero |
| `Layout.UnionHolds` | python/graphed/awkward/shuffle.py:89-158 | Union indexes rebased per tag name the same rows |
| `Parts.RangesTile` | python/graphed/write.py:116-126 | The kept ranges tile `[0, n)` in order |
| `Parts.EagerRangesAre` | python/graphed/write.py:116-126 | There is always a range: for an empty file the one empty range, otherwise exactly the steps' ranges that are not empty |
| `Parts.StepStart` | python/graphed/write.py:116-126 | A step starts at the whole part of its share of the entries |
| `Parts.RangesDistinct` | python/graphed/write.py:116-126 | No two ranges of a file are equal |
| `Parts.StepSize` | python/graphed/write.py:116-126 | Every step has `n / steps` entries or one more |
| `Parts.StepOf` | python/graphed/write.py:129-143 | Finds the first step with that range, or that there is none |
| `Parts.RangesAreInverted` | python/graphed/write.py:129-143 | Looking a kept range up gives the step it came from |
| `Parts.FileBases` | python/graphed/write.py:86-99 | Gives each file its own block of part numbers, refusing exactly a repeated file |
| `Parts.PartsAreDistinct` | python/graphed/write.py:102-113 | File base plus step is injective over all files and steps |

## Left out

- equality saturation itself: rewriting, scheduling and budgets belong to a library; the engine is a function from graphs to classes, constrained by the hypotheses named above.
- floating-point arithmetic: that `x + 0.0` is `x` is a hypothesis on the interpretation.
- byte idempotence of reduction: a second reduction may reorder sources of a stage; only the cone's idempotence is claimed.
- the payload bits of a NaN: a float parameter is its canonical key, so re-serializing a store holding a non-canonical NaN is not covered.
- the width of node ids and lengths in memory: ids are natural numbers; the 32- and 64-bit fields of the byte format are bounded.
- locking: the store's mutex and the session's lock make each operation atomic, and the model starts from there; callbacks that record into the session while it walks are not modelled.
- the mutable stacks of the walks: dead-code elimination's stack is a linked list of frames, and its `usize::MAX` marker an option.
- reduction statistics, DOT output, labels and the language bindings.
- dispatch to backends, loading of sources and externals, chunked row checks and failure attribution beyond node and member: running an operator is one function to a value and one to an optional failure.
- retry policies: a partition's result is what the retried process gives.
- Checkpoint.CheckpointStore.Completed: replays one journal; the source replays the union of every writer's journal, one file after the other.
- Joining.Join: a joined row is a pair of optional rows; merging the two records into one, key columns coalesced and shared columns refused, is not modelled.
- environment records, partition tags and upstream lists in journal records, fsync, renames, backoff on busy files and the remote store.
- the simulated kill: crashes are instead allowed at every point between store operations and inside an append.
- torn lines in the dead-letter log.
- key hashing and packing for joins: keys are compared by equality, so keys that are not equal to themselves are outside the model.
- unread placeholder buffers, byte- and bit-masked options converted on the way in, and the library concatenation used where every buffer is read.
- reading a part number from a partition that names its entries (`blind_part_index`) and frame collection for warnings (`_frames_by_key`): lookups without an invariant of their own.
- Deserialize: a count far beyond the bytes present only fails at the first missing byte; how much memory is reserved before that is not modelled.
- Resume.CrashesChangeNothing: speaks of one plan on one store, since task ids do not name what other plans compute.
- Failures.CompiledFailsIff: speaks of recorded graphs without stages; a recorded stage can hold a failing member its last member never reads.
- Agreement.IncrementalEqualsOneShot: asks for an engine whose classes are exactly the rule congruence on both cones; a bounded saturation may stop before that.
