# Logic-tree engine and risk site blocking, in Dafny

This project models two pieces of OpenQuake.

**The seismic-source logic-tree engine** (`openquake/hazardlib/lt.py`). A logic tree is a tree of branch-sets. Each branch-set owns an ordered list of weighted branches, and a branch may lead to a child branch-set. The engine:

- parses the uncertainty value of a branch from its XML node, by uncertainty type;
- reports malformed values as a `LogicTreeError` rendered as `filename '<f>', line <n>: <msg>`;
- looks branches up by id and follows a list of ids down the tree (`get_bset_values`);
- enumerates every root-to-leaf path with its weight, where collapsed branch-sets count once with weight 1;
- samples one branch per level with a seeded weighted draw;
- decides with a conjunctive filter whether an uncertainty applies to a seismic source;
- applies the uncertainties of a path to a group of sources, with copy isolation, the fan-out of collapsed branch-sets and a `changes` counter.

**The blocking of sites for the risk calculators** (`openquake/risk/job/general.py`):

- `split_into_blocks` chunks a list of sites into blocks of at most `sites_per_block` sites. A region constraint may filter the sites first.
- `Block.grid` yields the distinct grid points of a block in order of first occurrence.
- `EpsilonProvider.epsilon` caches one normal sample per structure category when assets are perfectly correlated.

## How the model is built

Modules follow the source:

| module | file | covers |
|---|---|---|
| `Text` | `text.dfy` | `str.strip`, `str.split`, `float(text)` and `%s` of an int, as the parsers use them |
| `LtErrors` | `lt_errors.dfy` | `LogicTreeError` |
| `Uncertainty` | `lt_parse.dfy` | the value parsers and the planar validation |
| `Sources` | `lt_sources.dfy` | `apply_uncertainty` and `filter_source` |
| `Sampling` | `lt_sampling.dfy` | `sample` |
| `LogicTree` | `lt_tree.dfy` | `Branch`, `BranchSet`, `__getitem__`, `get_bset_values` |
| `Paths` | `lt_paths.dfy` | `enumerate_paths`, `_enumerate_paths`, `BranchSet.sample` |
| `Apply` | `lt_apply.dfy` | `apply_uncertainties` |
| `RiskBlocks` | `risk_blocks.dfy` | `Block`, `split_into_blocks` |
| `RiskEpsilon` | `risk_epsilon.dfy` | `EpsilonProvider` |

Pure code is written as datatypes, functions and lemmas. Code that loops, appends or updates state is written as methods. Each method is proved equal to a specification function, and the properties the source promises are lemmas about that function:

| method | source | specification function |
|---|---|---|
| `Sampling.Sample` | `sample` | `SampleSpec` |
| `Paths.SampleBranches` | `BranchSet.sample` | `SampledPath` |
| `LogicTree.GetBsetValues` | `get_bset_values` | `BsetValues` |
| `Paths.Flatten` | the unwinding loop of `enumerate_paths` | `Branches` and `Product` |
| `Paths.EnumeratePaths` | `enumerate_paths` | `EnumPaths`, each path unwound |
| `Uncertainty.CharGeom` | `charGeom` | `CharGeomSpec` |
| `Apply.FilterAll` | the `oks` comprehension | `Oks` |
| `Apply.CopyBranches` | the loop over the branches of a collapsed set | `CollapsedCopies` |
| `Apply.ApplyPair` | one pass of the pair loop | `ExpandStep` |
| `Apply.ExpandSource` | the body of the source loop | `SourceSpec` |
| `Apply.ApplyUncertainties` | `apply_uncertainties` | `GroupSpec` |
| `RiskBlocks.SplitIntoBlocks` | `split_into_blocks` | `Blocks` of `Chunks` |
| `RiskBlocks.Grid` | `Block.grid` | `FirstOccurrences` of `Points` |
| `RiskEpsilon.EpsilonProvider.Epsilon` | `epsilon` | `EpsilonSpec` (not recursive) |

`Uncertainty.ParseUncertainty` has no loop. It is a method whose contract ties each uncertainty type to that type's parser function.

- **The tree is a value.** Branches and branch-sets are datatypes. The engine never changes a tree, so Python object identity becomes value equality.
- **Sources are values.** A source is a record of its id, tectonic region type, kind, code, scaling rate and a log of the modifications applied to it. `deepcopy` becomes a plain copy.
- **Source groups are objects.** A source group is a class, and `apply_uncertainties` returns a fresh group without touching its input.
- **The provider is an object.** `EpsilonProvider` is a class whose `samples` field the method updates.
- **Weights are reals.**
- **Randomness and the key-value store are parameters:**
  - the seeded generator is a stream of uniform draws per seed, and a weighted choice is the inverse of the cumulative distribution;
  - the normal draw of `epsilon` is a parameter;
  - the block ids handed out by the key-value store are a parameter.

### Behaviour of the code worth noting

- **Collapsing is refused by source code.** Collapsing is refused for any source whose `code` is `b'N'` (lt.py:287-290).
- **`changes` grows by the length of the whole output list of the source.** A collapsed branch-set adds `len(srcs)` (lt.py:297). This includes copies made by earlier pairs and the working copy. It equals the number of branches only when no earlier pair applied to that source.
- **`applyToSources` accepts a falsy source.** The check is `if source and ...` (lt.py:535).
- **The validation spacing must be non-zero, not positive.** Planar and complex geometry accept any non-zero spacing (lt.py:182, lt.py:198).
- **Weights must sum to exactly 1.** They are checked as exact reals, where numpy allows a float tolerance.
- **Enumeration is eager.** It is a generator in the source, so a missing branch of a collapsed branch-set surfaces only after the paths before it were yielded. In the model the whole enumeration fails.

## Model

| member | source | states |
|---|---|---|
| LtErrors.NewError | openquake/hazardlib/lt.py:39-43 | the error keeps file name and message; its line is the node itself when the node is an int, else the node's `lineno`, and it is `'?'` exactly when the node has no line |
| LtErrors.LineText | openquake/hazardlib/lt.py:45-47 | the line is rendered as `?` exactly when it is unknown; a known line renders as decimal text that reads back as that number and holds no `:` |
| LtErrors.RenderInjective | openquake/hazardlib/lt.py:45-47 | the message `filename '<f>', line <n>: <msg>` loses nothing: two errors whose file names hold no quote and whose renderings are equal are the same error |
| Uncertainty.ParseFloatValue | openquake/hazardlib/lt.py:53-57 | `unknown` succeeds exactly when the node has text that is a float, returning that float; otherwise a `LogicTreeError` on the node saying a single float was expected |
| Uncertainty.ParseFloatValueOfInt | openquake/hazardlib/lt.py:53-57 | an integer with white space before and after it, not necessarily the same amount on each side, parses back as that number |
| Uncertainty.ParseModelRef | openquake/hazardlib/lt.py:63-65 | `smodel` fails exactly when the node has no text; otherwise the reference is the node's text stripped of white space at both ends |
| Uncertainty.ParseModelRefStable | openquake/hazardlib/lt.py:63-65 | a node whose text is already the reference parses to the same reference |
| Uncertainty.ParseAbPair | openquake/hazardlib/lt.py:68-75 | `abGR` succeeds exactly when the text splits into two words that both parse as floats, and returns the pair of those two floats; otherwise a `LogicTreeError` on the node asking for a pair of floats |
| Uncertainty.ParseAbPairOfInts | openquake/hazardlib/lt.py:68-72 | two integers written with a space between them read back as the pair |
| Uncertainty.ParseAbPairArity | openquake/hazardlib/lt.py:68-75 | one, three or more space-separated words are refused with the pair error |
| Uncertainty.ParseIncMfd | openquake/hazardlib/lt.py:78-82 | `incMFD` succeeds exactly when the node has an `incrementalMFD` child, and returns that child's `minMag`, `binWidth` and `occurRates`; without one it reports the missing `incrementalMFD` |
| Uncertainty.ParseSimpleGeom | openquake/hazardlib/lt.py:149-162 | a simple-fault node is accepted exactly when its trace is a line of at least one point; otherwise the `'simpleFaultGeometry' node is not valid` error |
| Uncertainty.ParseComplexGeom | openquake/hazardlib/lt.py:165-185 | a complex-fault node is accepted exactly when its spacing is non-zero and every edge is a line of at least one point; the edges are kept in order |
| Uncertainty.CheckCorners | openquake/hazardlib/lt.py:189-200 | the corner loop raises exactly when a corner is out of range or, for any corner, the spacing is zero |
| Uncertainty.ValidatePlanar | openquake/hazardlib/lt.py:188-200 | a planar node is valid exactly when the spacing is non-zero and all four corners have lon in [-180,180], lat in [-90,90] and depth >= 0; otherwise the `LogicTreeError` on the node itself, with its line, saying the planar geometry is not valid |
| Uncertainty.SubSurface | openquake/hazardlib/lt.py:114-141 | each child of a characteristic fault gives one non-composite surface, and an unrecognised tag gives `Surface geometry type not recognised` |
| Uncertainty.SurfacesOutcome | openquake/hazardlib/lt.py:111-144 | the list of surfaces exists exactly when every child gives one, and then holds one surface per child in order; otherwise the error is that of the first failing child |
| Uncertainty.CharGeomOutcome | openquake/hazardlib/lt.py:111-144 | succeeds exactly when there are children and each gives a surface; one child gives its surface, more give a `MultiSurface` of all of them in order, none gives the `IndexError`; a failure is the first failing child's |
| Uncertainty.CharGeom | openquake/hazardlib/lt.py:111-144 | the loop over the children computes the characteristic geometry of the specification |
| Uncertainty.ParseUncertainty | openquake/hazardlib/lt.py:60-112 | dispatch by type: each registered type uses its parser, every other type the float parser; the fault-geometry parsers read the `simpleFaultGeometry` or `complexFaultGeometry` child when there is one and the node itself otherwise, and fail on the missing attribute when neither carries the geometry; and the value has the shape the type calls for; a characteristic fault geometry is exactly the surface `charGeom` builds, or its error |
| Sources.ApplyUncertainty | openquake/hazardlib/lt.py:205-263 | succeeds exactly when the type has an operation and the value unpacks; appends exactly one modification, with the operation and the argument names of the table, and changes nothing else of the source |
| Sources.ApplyArguments | openquake/hazardlib/lt.py:205-263 | the arguments carry the value: a value that is not unpacked is passed whole under its keyword, and each unpacked tuple passes its components under their keywords (`a_val=a, b_val=b`, `fault_trace=trace, …`, `edges, spacing`, `min_mag, bin_width, occurrence_rates`) |
| Sources.ParsedValuesApply | openquake/hazardlib/lt.py:205-263 | a value parsed for a type with an operation always applies |
| Sources.ApplyTwice | openquake/hazardlib/lt.py:205-263 | two applications log both operations in order and keep the scaling rate |
| Sources.FilterStep | openquake/hazardlib/lt.py:510-538 | the three filter keys: tectonic region type equality, source kind, where `point` excludes area sources, and source-id membership, which a falsy source passes; an unknown key or source type raises |
| Sources.FilterSource | openquake/hazardlib/lt.py:504-540 | the result is true exactly when every filter passes, so no filters accept everything; otherwise it is the outcome of the first filter that does not pass |
| Sampling.WeightValue | openquake/hazardlib/lt.py:326-331 | a float weight is itself; a mapping gives its `'weight'` entry, and has none without that key |
| Sampling.Weights | openquake/hazardlib/lt.py:326-331 | the weights of all objects in order, defined exactly when every object has one |
| Sampling.Sample | openquake/hazardlib/lt.py:312-336 | the loop collecting weights and the draws compute the specification of `sample` |
| Sampling.PickInterval | openquake/hazardlib/lt.py:333-334 | a draw in [0, total) picks an index with positive weight whose cumulative interval holds the draw |
| Sampling.PickInRangeAll | openquake/hazardlib/lt.py:333-336 | with valid weights every drawn index is in range |
| Sampling.SampleShape | openquake/hazardlib/lt.py:312-336 | `sample` succeeds exactly when the checks on seed, weights and count pass, and returns exactly `n` objects, each an input object with positive weight |
| Sampling.SamplePrefix | openquake/hazardlib/lt.py:333-336 | the draws depend on the seed only: fewer samples with the same seed are a prefix of more |
| LogicTree.NewBranch | openquake/hazardlib/lt.py:355-360 | a new branch keeps its ids, weight and value and leads nowhere |
| LogicTree.NewBranchSet | openquake/hazardlib/lt.py:433-437 | a new branch-set has no branches and, when none are given, no filters |
| LogicTree.FirstWithId | openquake/hazardlib/lt.py:494-502 | the position of the first branch with the id: every branch before it has another id |
| LogicTree.Lookup | openquake/hazardlib/lt.py:494-502 | `bset[id]` succeeds exactly when some branch has the id, returns a branch with that id, and otherwise raises `KeyError(id)` |
| LogicTree.LookupFirst | openquake/hazardlib/lt.py:494-502 | the branch found is one of the set's and no earlier branch has the id |
| LogicTree.GetBsetValues | openquake/hazardlib/lt.py:542-557 | the loop computes the walk of the specification |
| LogicTree.BsetValuesLevel | openquake/hazardlib/lt.py:542-557 | level `i` holds the branch-set of that level and the value of the branch named by the `i`-th id, whose child is the next level |
| LogicTree.BsetValuesChain | openquake/hazardlib/lt.py:542-557 | at most one pair per id, starting at the root; each pair's value is that of the named branch, each next branch-set the named branch's child, and the walk stops early only at a branch with no child |
| LogicTree.BsetValuesFails | openquake/hazardlib/lt.py:542-557 | a failed walk is the `KeyError` of an id that is missing at the level the ids before it lead to |
| LogicTree.BsetValuesFailsAt | openquake/hazardlib/lt.py:542-557 | conversely, an id missing at the level the ids before it lead to makes the walk raise that id's `KeyError` |
| Paths.Flatten | openquake/hazardlib/lt.py:466-473 | unwinding a nested path gives its branches root first and the product of their weights |
| Paths.EnumeratePaths | openquake/hazardlib/lt.py:456-473 | succeeds exactly when the enumeration does, and yields for each enumerated path, in order, the product of its weights and its branches root first |
| Paths.EnumPathsChains | openquake/hazardlib/lt.py:475-492 | every enumerated path extends its prefix by one branch per level, each an effective branch of its level's branch-set, and ends at a branch with no child |
| Paths.EnumFromChains | openquake/hazardlib/lt.py:484-492 | the same for the paths through the branches from the `i`-th on |
| Paths.BranchesInjective | openquake/hazardlib/lt.py:466-473 | two nested paths that unwind to the same branches are the same path |
| Paths.EnumPathsComplete | openquake/hazardlib/lt.py:475-492 | conversely, every such chain below the prefix, ending at a branch with no child, is among the enumerated paths |
| Paths.HereWeights | openquake/hazardlib/lt.py:486-492 | the paths through one branch of a conforming tree, past the prefix, weigh that branch's weight in total; a collapsed set's branch weighs 1 |
| Paths.EnumFromWeights | openquake/hazardlib/lt.py:484-492 | the paths through the branches from the `i`-th on weigh the sum of those branches' weights in total |
| Paths.EnumPathsWeights | openquake/hazardlib/lt.py:475-492 | below any prefix, the enumerated paths of a conforming tree weigh 1 in total |
| Paths.EnumeratedWeightsSumToOne | openquake/hazardlib/lt.py:456-492 | when every non-collapsed branch-set's weights sum to 1 and collapsed ones have a branch, the enumeration succeeds and the yielded weights sum to 1 |
| Paths.Choose | openquake/hazardlib/lt.py:445-449 | the branch chosen at a level is one of that level's branches |
| Paths.ChooseDraws | openquake/hazardlib/lt.py:445-449 | a collapsed set gives its first branch; otherwise the branch whose cumulative-weight interval holds the first draw after seeding |
| Paths.SampleBranches | openquake/hazardlib/lt.py:439-454 | the `while` loop computes the sampled path of the specification |
| Paths.SampledPathChain | openquake/hazardlib/lt.py:439-454 | the sampled path has one branch per level, each a branch of its level's set, the first one for collapsed sets, and it stops at the first branch with no child |
| Paths.SampledPathFails | openquake/hazardlib/lt.py:439-454 | sampling a tree fails only on a collapsed set without branches or on a weight check of `sample` |
| Apply.Oks | openquake/hazardlib/lt.py:281 | one filter outcome per pair |
| Apply.OksOutcome | openquake/hazardlib/lt.py:281 | the outcomes exist exactly when every filter succeeds, and then each is its pair's branch-set filter on the source; otherwise the error is that of some filter |
| Apply.CountTrueZero | openquake/hazardlib/lt.py:282 | `sum(oks)` is zero exactly when no branch-set lets the source through |
| Apply.FilterAll | openquake/hazardlib/lt.py:281 | the comprehension's loop computes the outcomes |
| Apply.CollapsedCopies | openquake/hazardlib/lt.py:291-296 | one copy per branch |
| Apply.CopiesSucceed | openquake/hazardlib/lt.py:291-296 | the copies are made exactly when every branch's value applies to the source |
| Apply.CopiesValues | openquake/hazardlib/lt.py:291-296 | the copies are in branch order, each the working source with the branch's weight as scaling rate and the branch's value applied |
| Apply.CopyBranches | openquake/hazardlib/lt.py:291-296 | the loop over the branches computes those copies |
| Apply.ApplyPair | openquake/hazardlib/lt.py:285-302 | one pass of the inner loop computes its step of the specification |
| Apply.CollapsedStep | openquake/hazardlib/lt.py:286-297 | a collapsed pair leaves the working copy alone, appends the copies and adds the new length of the output list to `changes` |
| Apply.ExpandSource | openquake/hazardlib/lt.py:280-305 | the body of the source loop computes one source's output and change count |
| Apply.ApplyUncertainties | openquake/hazardlib/lt.py:268-306 | the result is a fresh group with the input's name and tectonic region type, the outputs of all sources in order and the total of their changes; the first error aborts |
| Apply.UnfilteredKept | openquake/hazardlib/lt.py:303-304 | a source no branch-set applies to is kept once, unchanged, with no change counted |
| Apply.EmptyPathKeepsGroup | openquake/hazardlib/lt.py:277-306 | with no pairs the group keeps its sources and counts no change |
| Apply.PlainExpand | openquake/hazardlib/lt.py:298-302 | over non-collapsed pairs the working copy gets every applicable value in order and each adds 1 to `changes` |
| Apply.PlainSource | openquake/hazardlib/lt.py:282-302 | a source reached only by non-collapsed pairs is output once, with all their values applied, counting one change per applicable pair |
| Apply.SingleCollapsed | openquake/hazardlib/lt.py:286-297 | a source reached only by one collapsed branch-set of `k` branches becomes `k` copies and counts `k` changes |
| Apply.CollapseRefused | openquake/hazardlib/lt.py:287-290 | a source with code `N` that any collapsed branch-set lets through fails; it raises `NotImplementedError` naming the source unless an earlier plain branch-set's value fails to apply first |
| Apply.ExpandRefuses | openquake/hazardlib/lt.py:285-290 | over the pair loop: a collapsed branch-set that lets an `N` source through makes the loop fail, with the error naming the source when no earlier plain value fails to apply |
| Apply.PlainThenCollapsed | openquake/hazardlib/lt.py:285-302 | a non-collapsed pair and then a collapsed one of `m` branches output the modified working copy followed by `m` copies made from it, and count `m + 2` changes |
| Apply.TwoCollapsed | openquake/hazardlib/lt.py:286-297 | two collapsed pairs of `m` and `n` branches output `m + n` copies and count `2m + n` changes, because `changes` adds the cumulative output length |
| RiskBlocks.NewBlock | openquake/risk/job/general.py:339-345 | a block keeps its sites in order and its id when that is given and non-empty, else takes a generated id |
| RiskBlocks.EqualIgnoresIds | openquake/risk/job/general.py:358-359 | block equality is an equivalence on sites alone; blocks made from the same sites are equal whatever their ids |
| RiskBlocks.SplitIntoBlocks | openquake/risk/job/general.py:390-419 | the loop emits one block per chunk of the specification, in order, each with a generated id |
| RiskBlocks.ChunksConcat | openquake/risk/job/general.py:403-419 | laid end to end, the blocks are the kept sites in order |
| RiskBlocks.ChunksSizes | openquake/risk/job/general.py:412-419 | for a positive block size every block is non-empty and has at most `sites_per_block` sites, all but the last exactly that many |
| RiskBlocks.ChunksCount | openquake/risk/job/general.py:403-419 | the number of blocks is the number of kept sites divided by the block size, rounded up |
| RiskBlocks.SplitIntoBlocksShape | openquake/risk/job/general.py:390-419 | for a positive block size: the blocks reproduce the kept sites, or all sites without a constraint; they are non-empty and full but the last; there are ceil(n / size) of them, so none exactly when no site is kept |
| RiskBlocks.KeptAll | openquake/risk/job/general.py:406-410 | without a constraint every site is kept |
| RiskBlocks.KeptMembers | openquake/risk/job/general.py:406-410 | a site is kept exactly when it is an input site the constraint matches |
| RiskBlocks.UnreachedSize | openquake/risk/job/general.py:412-419 | without a constraint, a size of zero or less is never reached, so all sites form one block |
| RiskBlocks.Grid | openquake/risk/job/general.py:347-356 | the loop with `used_points` yields the first occurrences of the sites' grid points |
| RiskBlocks.FirstOccurrencesProperties | openquake/risk/job/general.py:351-356 | the grid points yielded are distinct and are exactly the points of the block's sites; each occurrence of a later point comes after an occurrence of every earlier one |
| RiskBlocks.EqualBlocksSameGrid | openquake/risk/job/general.py:347-359 | equal blocks have the same grid |
| RiskEpsilon.EpsilonProvider.constructor | openquake/risk/job/general.py:288-294 | a new provider has the configured correlation and no samples |
| RiskEpsilon.EpsilonProvider.Epsilon | openquake/risk/job/general.py:296-330 | the method computes the result and the new cache of the specification and keeps the correlation |
| RiskEpsilon.Uncorrelated | openquake/risk/job/general.py:310-315 | with no correlation the call returns its own draw; any correlation other than `"perfect"` raises `ValueError`; neither touches the cache |
| RiskEpsilon.PerfectOutcome | openquake/risk/job/general.py:316-330 | under perfect correlation a call fails exactly when the asset has no structure category, reporting its id or the `KeyError` of a missing id; otherwise it returns the category's cached sample, which is the new draw exactly when none was cached |
| RiskEpsilon.CacheOnlyGrows | openquake/risk/job/general.py:318-330 | the cache exists after any perfectly-correlated call, even one that fails; cached entries never change, and the only new key is the asset's category |
| RiskEpsilon.SameCategorySameSample | openquake/risk/job/general.py:328-330 | a second asset of the same category gets the first one's sample whatever its draw, and the cache does not change |
| RiskEpsilon.CallsKeepEntries | openquake/risk/job/general.py:318-330 | over any sequence of calls, a cached entry is never changed |
| RiskEpsilon.CallsShareSamples | openquake/risk/job/general.py:316-330 | over a sequence of successful calls, every asset gets the final cache's sample of its category, so assets of one category share a sample |

## Left out

- **Geometry construction.** The geometry library is not part of this model. This covers:
  - the building of traces, edges and surfaces (`geo.Line`, `SimpleFaultSurface`, `ComplexFaultSurface`, `PlanarSurface`, `MultiSurface`);
  - `split_coords_2d` and `split_coords_3d`.

  Parsers take nodes whose coordinates are already read. Whether a line can be built is an input.
- **Source modifications.** `source.modify` and `source.mfd.modify` are a log of operation names and arguments. Their effect on the source is not modelled.
- **Floating point.** Weights, coordinates and samples are reals. Rounding in products and sums is not modelled.
- **The random generators.** numpy's generator is a stream of uniform draws per seed, given as a parameter. `norm.rvs` is a draw given as a parameter.
- **The key-value store.** This covers `Block.from_kvs`, `Block.to_kvs` and `kvs.generate_block_id`. Generated ids are a parameter.
- **The rest of the module.** `Block.id` is not modelled beyond the stored id.
- **The region.** `region.grid.point_at` is a parameter and cannot fail. `constraint.match` is a predicate. Sites are `(longitude, latitude)` pairs.
- **Laziness.** Generators are modelled as complete lists: `enumerate_paths`, `_enumerate_paths`, `split_into_blocks` and `grid`. What a consumer sees before a late error is not modelled.
- **Float parsing.** `float(text)` is modelled for decimal literals with an optional sign, fraction and exponent. `inf`, `nan` and underscores are not.
- **`LogicTreeError` line numbers.** Non-integer line attributes of a node are not modelled.
- **`EpsilonProvider` parameters.** The parameters other than `ASSET_CORRELATION` are not modelled. A non-string `ASSET_CORRELATION` is not modelled either.
- **`SourceGroup` attributes.** Only the name, tectonic region type, sources and `changes` are kept. The shallow copy of the other attributes is not modelled.
- **Aliasing in `apply_uncertainties`.** Aliasing between the working copy and the output list is modelled as an explicit "already listed" flag. A later non-collapsed pair that changes the listed copy changes the output.
- Uncertainty.ParseUncertainty: when a fault-geometry node has no geometry child and cannot be read as a geometry itself, the model reports one missing attribute, `LineString` or `nodes`. Which attribute or key Python trips over first (a missing `spacing` key, say) is not modelled.
- **Paths.EnumeratedWeightsSumToOne: exact sums.** The weights of a branch-set are required to sum to exactly 1.0. A float tolerance is not modelled.
- **Sampling.SampleShape: exact sums.** The weight sum is checked for exactly 1.0, where numpy allows a small tolerance.
