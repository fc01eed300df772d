# sensible-merging-webpack-plugin, modelled in Dafny

This project models the core of the webpack plugin `SensibleMergingPlugin` and of
its companion `VariantMergeStrategy`.

The plugin is a variant of webpack's aggressive merging. On every `optimizeChunks`
round it does the following:

- It visits every pair of chunks that cannot be initial, the inner chunk listed
  before the outer one.
- It drops the pairs the chunk graph cannot integrate.
- It asks an optional merge strategy, which may veto a pair and give a reason.
- It scores each remaining pair: the two chunks' sizes added up, divided by the size
  of their integration.
- It merges the best pair when its score reaches `minSizeReduce` (1.5 by default).

Webpack runs the round again after every merge, until one changes nothing.

`VariantMergeStrategy(generateVariants)` is a ready-made strategy. It maps the
modules of each chunk to `{path, variant}` records and drops duplicate records. It
vetoes the merge when both sides hold the same asset path with different variants.

Modules:

- `Wrappers`: `Option` and `Result`.
- `Seqs`: distinctness, first positions, subsequences, deletion by value.
- `Config`: the options object, the constructor's argument check, the effective
  threshold.
- `Variants`: `uniqueModules` and `mergeStrategy`.
- `ChunkGraph`: the chunk-graph queries the pass makes. They are fields of a `Port`
  over an abstract graph state `G`. `integrateChunks` returns the next state.
- `Enumeration`: the nested loop over chunk pairs. It skips initial chunks and breaks
  when the inner loop reaches the outer chunk.
- `Selection`: the stable sort by decreasing improvement, and its first element.
- `Planner`: one pass as a pure function `PlanOnePass`, plus the host's
  rerun-until-stable loop `Optimize`.

The chunk set is a JavaScript `Set`, so the model takes it as a sequence without
repetitions, in insertion order. `compilation.chunks.delete` becomes deletion by
value, which keeps the order of the rest.

## Model

| member | source | states |
|---|---|---|
| `Config.Construct` | src/SensibleMergingPlugin.ts:23-33 | Booleans, numbers, strings, symbols, bigints, functions and arrays are refused with the fixed message. `undefined` and `null` give the empty options. Any other object is kept as the options. |
| `Config.MinSizeReduce` | src/SensibleMergingPlugin.ts:37 | The threshold is never zero. It is the configured value when that is a non-zero number, and 1.5 when the value is absent or zero. |
| `Planner.Apply` | src/SensibleMergingPlugin.ts:35-38 | The plugin works on the given chunk graph. Its threshold is exactly the one `Config.MinSizeReduce` fixes: the configured value when non-zero, otherwise 1.5, so never zero. The configured strategy (or none) is used unchanged. |
| `Variants.Unique` | src/VariantMergeStrategy.ts:9-27 | The result holds no record twice. It holds exactly the records of the input. The kept records are in the order of their first occurrences in the input. |
| `Variants.UniqueModules` | src/VariantMergeStrategy.ts:9-27 | The loop with its two-level `path -> variant` cache computes exactly `Unique`: a record is pushed if and only if its pair is not cached yet. |
| `Variants.UniqueIsSubseq` | src/VariantMergeStrategy.ts:13-24 | De-duplication only drops records and never reorders them: the result is a subsequence of the input. |
| `Variants.UniqueOfDistinct` | src/VariantMergeStrategy.ts:13-24 | A list without repeated records comes back unchanged. |
| `Variants.UniqueIdempotent` | src/VariantMergeStrategy.ts:9-27 | De-duplicating twice is the same as de-duplicating once. |
| `Variants.FindConflict` | src/VariantMergeStrategy.ts:33-42 | The nested scan finds nothing exactly when no two records conflict. Otherwise it returns the first conflicting pair in outer-then-inner order. |
| `Variants.MergeStrategy` | src/VariantMergeStrategy.ts:29-47 | The merge is denied exactly when some generated record of side A has the same path and a different variant as some record of side B. A reason is given exactly on denial. The reason names the path and both variants of the first such pair of the de-duplicated lists. |
| `Variants.HasConflictUnique` | src/VariantMergeStrategy.ts:30-35 | De-duplicating both sides never changes whether they conflict. |
| `Variants.HasConflictSymmetric` | src/VariantMergeStrategy.ts:35 | The conflict test does not depend on which side is A. |
| `Variants.MergeStrategySymmetric` | src/VariantMergeStrategy.ts:29-47 | Swapping the two chunks never changes whether the merge is allowed. Only the reason text may differ. |
| `Variants.EmptySideAllows` | src/VariantMergeStrategy.ts:33-46 | When either side generates no record, the merge is allowed with no reason. |
| `Variants.DifferingVariantsExample` | src/VariantMergeStrategy.ts:35-38 | With an iOS and an Android variant of one asset, the merge is denied with the message naming the asset and both variants. Two chunks with the same variant may merge. |
| `Enumeration.Pairs` | src/SensibleMergingPlugin.ts:55-60 | The pairs visited are exactly the pairs of non-initial chunks whose inner chunk comes strictly earlier in the chunk list. They are visited in order of outer position, then inner position. |
| `Enumeration.PairsCount` | src/SensibleMergingPlugin.ts:55-60 | With m non-initial chunks, m * (m - 1) / 2 pairs are visited. |
| `Enumeration.PairsOnce` | src/SensibleMergingPlugin.ts:55-60 | No two chunks are visited together twice, in either orientation. |
| `Selection.SortByImprovement` | src/SensibleMergingPlugin.ts:93-95 | The sorted candidates are a permutation of the candidates, in non-increasing order of improvement. |
| `Selection.ArgMax` | src/SensibleMergingPlugin.ts:93-97 | This is the position of the first candidate with the largest improvement. |
| `Selection.SortHead` | src/SensibleMergingPlugin.ts:93-97 | Because the sort is stable, its first element is the earliest candidate with the largest improvement. |
| `Planner.PresentResources` | src/SensibleMergingPlugin.ts:64-65 | The kept resource paths are the non-empty ones of the chunk's modules. Every one of them is kept, and nothing else. |
| `Planner.PresentResourcesAppend` | src/SensibleMergingPlugin.ts:64-65 | Filtering two module lists joined gives the paths of the first followed by those of the second, so the strategy receives the paths in module order, repeats included. |
| `Planner.PresentResourcesSingle` | src/SensibleMergingPlugin.ts:64-65 | A single module contributes its path exactly when the path is present and non-empty. Together with the previous row this fixes the whole list. |
| `Planner.Evaluate` | src/SensibleMergingPlugin.ts:61-89 | A visited pair becomes a candidate exactly when the graph can integrate it and the strategy does not veto it. Its improvement is then the size ratio. |
| `Planner.StrategyConsultedOnlyWithResources` | src/SensibleMergingPlugin.ts:63-76 | The strategy is consulted only when both chunks have resource paths. When either has none, the outcome is the same as with no strategy. A veto means the strategy was asked and refused. |
| `Planner.Survivors` | src/SensibleMergingPlugin.ts:58-89 | The surviving pairs are exactly the visited pairs that score. |
| `Planner.LogRecordsVetoes` | src/SensibleMergingPlugin.ts:70-73 | Every veto logs "Preventing merge " followed by the reason, or by nothing when there is no reason. Every logged line comes from a veto. |
| `Planner.Candidates` | src/SensibleMergingPlugin.ts:55-91 | Every candidate is an eligible pair with its size ratio. Every eligible pair is a candidate. Eligible means: both chunks non-initial, `b` earlier than `a`, integrable, not vetoed. |
| `Planner.CandidatesCountWithoutFilters` | src/SensibleMergingPlugin.ts:55-91 | With every pair integrable and no strategy, m non-initial chunks give m * (m - 1) / 2 candidates. |
| `Planner.PassMergesEligiblePair` | src/SensibleMergingPlugin.ts:55-104 | A merged pair consists of two different chunks of the list. The pair is eligible. Its improvement is the size ratio and reaches the threshold. |
| `Planner.PassPicksBest` | src/SensibleMergingPlugin.ts:87-97 | No eligible pair has a larger improvement than the merged pair. |
| `Planner.PassBreaksTiesByVisitOrder` | src/SensibleMergingPlugin.ts:93-97 | Every eligible pair visited before the merged pair has a strictly smaller improvement. |
| `Planner.PassStableIff` | src/SensibleMergingPlugin.ts:97-100 | A pass changes nothing exactly when every eligible pair scores below the threshold. This includes the case of no eligible pair. |
| `Planner.PassRemovesOnlyAbsorbed` | src/SensibleMergingPlugin.ts:102-103 | A merge integrates `a` into `b` in the graph. It removes exactly `a`'s position from the chunk list and keeps every other chunk, `b` included, in its place. The list stays without repetitions and gets one shorter. |
| `Planner.Optimize` | src/SensibleMergingPlugin.ts:45-105 | Rerunning the pass until it reports no change ends on a chunk list where a further pass changes nothing. Every merge removes one chunk, so there are fewer merges than chunks. The final chunks are a subset of the initial ones, without repetitions. |
| `Planner.SharedContentExample` | src/SensibleMergingPlugin.ts:78-104 | Two 15-unit chunks that integrate to 20 units score 30 / 20 = 1.5, which reaches the default threshold. The later chunk is merged into the earlier one, and the entry chunk stays. |

## Left out

- The webpack wiring is left out: the `thisCompilation` and `optimizeChunks` hooks,
  the stage constant and the logger object. The log is returned as a list of lines.
- The chunk graph's internals are left out. `canBeInitial`, `canChunksBeIntegrated`,
  the module lists, the sizes and `integrateChunks` are parameters of the model. The
  only assumption is that an integrated size is a positive whole number.
- Floating point is left out. Improvements are exact rationals, sizes are whole
  numbers, and NaN and infinities cannot occur. In the source, an integrated size of
  0 or a NaN comparator result would change the sort order.
- Config.MinSizeReduce: models `||` only for the values an
  options object can hold. NaN, `-0` and non-numeric values of `minSizeReduce` are
  left out, because the model's threshold is a `real`.
- Variants.UniqueModules: the cache is keyed by the JavaScript object keys of
  `path` and `variant`. The source therefore treats a missing value and the string
  "undefined" as the same key, and it is exposed to prototype keys such as
  "__proto__". The model compares optional strings exactly. This changes decisions,
  not only messages. Take side A with records (no path, "x") and ("undefined", "x"),
  and side B with ("undefined", "y"). The source caches both A records under one key
  and keeps only the first. Its `===` test then finds no conflict, so it allows the
  merge, while the model denies it. The `Variants.MergeStrategy` clause "denied
  exactly when the raw generated lists conflict" and `Variants.HasConflictUnique`
  hold only under exact comparison.
- Only the `path` and `variant` of a generated record are kept. Extra fields would
  make "the first occurrence is kept" observable beyond order.
- `generateVariants` is a parameter (`Generator`), since it is supplied by the user.
- Planner.Optimize: returns a merge count, the final graph and the log. It does not
  restate which pairs were merged, because each step is covered by the `Pass*`
  lemmas.
- Selection.SortByImprovement: stability is proved only for the head of the sorted
  list (`Selection.SortHead`), the one element the pass uses. It is not proved for
  the whole order.
- The improvement of later passes depends on the chunk graph, so no statement is
  made about improvements across passes.
- A merge-everything "strict" mode and a cache of strategy answers keyed by chunk
  name do not appear in the plugin's source, so they are not modelled.
