# A verified model of the factorized query engine

The engine keeps join results as *f-representations*: trees of records in which the slots of a
record are independent of each other, so that a record stands for the Cartesian product of what
its slots hold. From them it answers counts, sums, sums of products, extremes, GROUP BY and
EXISTS without ever building the flat join. Everything here is stated against one simple meaning:

* a tuple is a map from attributes to integers, and a bag is a sequence of tuples up to
  permutation (`Bags`);
* a record `Rec(vals, weight, slots)` denotes the bag `Flat(rec)`, its own values once per weight,
  crossed with the bags of its slots (`FReps`);
* the rows a query asks for are the choices of one row per relation that satisfy every predicate
  between two relations (`Graphs.FlatJoin`, `Answering.JoinRows`);
* the rows the engine finds are those whose columns have the same bits wherever such a predicate
  compares them (`Graphs.WordJoin`, `Answering.FoundRows`). Joins compare packed 64-bit words, and
  a 32-bit column is zero-extended, so this is what every executor is proved to answer, for any
  widths, plan, mode and strategy. Where predicates compare columns of one width the two are the
  same rows (`Answering.FoundAsAsked`); for any other planned graph `MixedWidths` gives data on
  which they are not even as many.

The project goes up from there, one module per component: f-tree surgery (`FTrees`, `TreeSurgery`,
`Transforming`, `TreeShapes`), partial flattening (`Flattening`, `Reordering`, `Restructuring`,
`Ordering`), the factorized join and the fused count (`Joins`, `Instances`, `FactorizedJoins`,
`CountJoins`, `Reaching`, `Lookups`, `CutWalks`, `SqlJoins`, `RowCounts`, with the code that runs
them in `LowerMethods`, `UpperMethods`, `JoinMethods`, `CountMethods`), planner and executor
(`Equalities`, `Plans`, `Convergence`, `Answering`, `Refusals`, `Executing`), folds
(`FRepMethods`, `Sums`, `Folds`, `Groups`, `GroupFolds`, `GroupTables`, `Building`), enumeration
(`Enumerating`, `Materializing`), slicing (`Filters`, `Slicing`, `SliceKeys`, `SliceChoices`,
`SliceMethods`, `GroupSlices`, `SliceExactness`), the reducer (`Acyclic`, `JoinOrders`,
`Reduction`, `ReduceMethods`), the operator's threads (`Protocol`, `CleanRuns`, `Operator`), and
the structures underneath (`HashTables`, `Scanning`, `Probing`, `KeySets`, `ShardedSets`,
`Checked`, `Int128s`, `KeyPacking`). A lemma about joins takes as a parameter how keys are
compared, by value or by the words two type lists pack them into (`FlatJoins.Comparing`).

Code that changes state is modelled as methods over classes, arrays and fields, each proved
against a function of its inputs or of the old state; what that function means is then proved
about the function. Arithmetic that the program checks is checked here, so contracts read "if a
value comes back, it is exact". Running out of memory and giving up on a slow plan are
nondeterministic failures: a method may fail where the program might.

Where the code and the intended meaning part ways, the code is kept, an input shows the
difference, and the exact condition under which they agree is proved:

* a predicate between two columns of one relation is dropped (`SelfPredicates`): harmless exactly
  when the other predicates imply it, or when some relation has no columns and so no rows;
* an outer, semi or anti join marks lower entries before the rest of the upper record is known to
  be non-empty (`Unpruned`): exact exactly when no marked key lacks an upper tuple, and exact over
  every lower side exactly when every key looked up is that of some upper tuple, that is, when
  cutting off what the walk meets later adds no key (`CutWalks`);
* grouping by keys that part into different branches starts a branch from zero instead of from
  nothing (`GroupFolds`): the extreme is exact exactly when the keys do not part or some row
  reaches zero from the losing side;
* 32-bit key columns are zero-extended (`KeyPacking`, `MixedWidths`): words compare as keys exactly
  when the type lists agree, and a planned graph is counted right on all data exactly when every
  predicate between two relations compares columns of one width; any other one has data of which
  the engine misses rows, and data to which it adds rows;
* the planner calls a plan made for level-wise merging safe under naive merging too
  (`NaiveWidths`): its keys still converge, and fit where widths agree, but a planned graph of mixed
  widths is shown whose keys are too wide for a word under the naive strategy;
* buckets are made by the classes of all predicates, joins apply only those between relations, by
  words (`SliceExactness`): buckets add up on all data exactly when the bucketing columns are of one
  width and equal by the predicates the joins apply. Where they are not, counting by buckets is
  proved to count the rows that are in one bucket with all their columns.

## Model

| member | source | states |
|---|---|---|
| TreeSurgery.TreeNode.MarkRequired | src/core/ftree.cpp:186-207 | The nodes marked are exactly those that hold a join key or lie above one; the answer is whether the root is among them. |
| TreeSurgery.TreeNode.MergeLevelwise | src/core/ftree.cpp:238-270 | Moving subtrees in place, on a tree whose marks are right, leaves the tree that level-wise merging denotes, still a tree that shares nothing, new nodes being fresh; the node returned is at the end of the merged path. |
| TreeSurgery.TreeNode.Descend | src/core/ftree.cpp:213-231 | Walking down while exactly one child is required and merging from there changes only that subtree, and ends at the deepest required node. |
| TreeSurgery.Absorb | src/core/ftree.cpp:278-291 | The required nodes below pass their attributes and sources to the top node in order, and what is returned is exactly what hung below them. |
| TreeSurgery.TreeNode.MergeNaive | src/core/ftree.cpp:276-294 | In place, every required node collapses into the root; no node is added. |
| TreeSurgery.TreeNode.CreateRootToLeafPath | src/core/ftree.cpp:298-311 | For any tree, keys and strategy, the tree left behind and the insertion node returned are those of the transformation the joins are proved about. |
| TreeShapes.PathShape | src/core/ftree.cpp:186-311 | A tree without a key stays as it is. Under level-wise merging every attribute stays at its depth, all that holds a key comes to lie on one way down ending at the insertion node, and the subtrees without a key are the same ones as before; under naive merging those subtrees are the root's children and every other attribute is in the root. |
| Transforming.PathTreeValid | src/core/ftree.cpp:298-311 | The transformed tree stores every attribute exactly once, draws every input node exactly once, and fixes every parent before its child. |
| Transforming.Restructure | src/core/materialize.hpp:132-238 | For any tree, key list and strategy, copying a representation under the transformed tree's provenance keeps its flat bag, weights included, and the copy conforms to the new tree. |
| Reordering.Reorder | src/core/materialize.hpp:132-155 | Nested loops over input nodes emit the same bag in any order that fixes parents first. |
| Ordering.OrderSources | src/core/materialize.cpp:66-101 | The ordering loop completes exactly when every source's parent is owned by some level; what it leaves is a permutation, parents first, and unchanged if it was in order already. |
| Ordering.PlannedSourcesStand | src/core/materialize.cpp:66-101 | The sources a transformed tree gives a node are always in such an order with all parents owned, so the loop never throws on the engine's own plans. |
| Joins.JoinMeaning | src/core/join.cpp:633-770 | Attaching, below each insertion record, records that answer its key denotes the bag join of the two flat bags, however keys are compared and wherever the insertion node lies. |
| Instances.EntriesAnswer | src/core/join.cpp:602-626 | The instances met at the key level of the restructured lower side, filed by key, answer each key with exactly the tuples whose keys meet it. |
| FactorizedJoins.JoinTheorem | src/core/join.cpp:633-770 | The pruned output of a join conforms to the merged tree, stores the attributes of both sides, has no empty record, and denotes the bag join, for keys compared by value or by word, either strategy and any order within the key lists. |
| Convergence.LevelwiseConvergesIff | src/core/join.cpp:512-527 | Under level-wise merging the keys end up on one node, as the key reader asks, if and only if the input tree stores all of them at one depth. |
| Convergence.NaiveConvergesIff | src/core/join.cpp:512-527 | Under naive merging they do if and only if the input tree stores all of them. |
| Convergence.PlannerAsksOneDepth | src/core/plan.cpp:785-804 | The simulation the planner runs on a composite key accepts it if and only if the tree stores its columns at one depth. |
| LowerMethods.MakeKeyReader | src/core/join.cpp:503-543 | A reader is made exactly when all keys are stored at one node and fit 64 bits; it names that node, and the error says which of the two failed. |
| LowerMethods.LowerSide.MaterializeLower | src/core/join.cpp:572-597 | With a shared, overwritten context, the record built for the key level is the one the records fixed on the key path determine. |
| LowerMethods.LowerSide.IterateKeyPath | src/core/join.cpp:602-626 | The callback sees one item per combination of records on the key path, in order, each with the packed key and the context, record or size of that combination. |
| LowerMethods.LowerSide.SizeOfLower | src/core/join.cpp:783-809 | The size computed without building is the size of the record that would be built. |
| UpperMethods.UpperSide.BuildSubtree | src/core/join.cpp:633-770 | A built subtree, its insertion records resolved by address, is the join's output record for the records fixed in the context. |
| UpperMethods.UpperSide.InsertBelow | src/core/join.cpp:744-755 | A record is appended below exactly the insertion records filed under its key, once each, and nowhere else. |
| JoinMethods.JoinTop | src/core/join.cpp:683-719 | For any two column type lists: with the lower side indexed first and replayed below each upper record, the roots are the join's output records for an answer that files every lower instance under the words its key meets. |
| JoinMethods.JoinBottom | src/core/join.cpp:720-755 | With the upper side built first and the lower instances inserted below it, the same holds. |
| JoinMethods.FactorizedJoin | src/core/join.cpp:633-770 | For any two column type lists and both modes, a returned relation is the pruned bag join by packed words under the merged tree, and the equi-join by value where the type lists agree; it comes back only, and key errors are reported only, as the keys converge and fit or do not. |
| HashTables.ChainingHashTable.Insert | src/core/hashtable.hpp:71-86 | Appends one entry and keeps the table well-formed. |
| HashTables.ChainingHashTable.Finalize | src/core/hashtable.hpp:89-115 | Threads the entries into chains such that every chain is finite and holds exactly the entries of its slot. |
| HashTables.ChainingHashTable.ForEachMatch | src/core/hashtable.hpp:118-144 | Yields exactly the values inserted under the key, latest first, whatever the hash function and its collisions; nothing before finalizing. |
| HashTables.ChainingHashTable.ForEachMatchMutable | src/core/hashtable.hpp:154-158 | Changes exactly the entries under the key, in place, and no other. |
| KeyPacking.PackInjective | src/core/join.cpp:484-494 | Under one list of column types that fits 64 bits the packed word determines the key. |
| KeyPacking.EveryPattern | src/core/join.cpp:484-494 | Every pattern of 32 or 64 bits is the pattern of exactly one value a column of that width holds. |
| KeyPacking.PackedByColumn | src/core/join.cpp:484-494 | Two type lists of one length that fit 64 bits pack two keys into one word exactly when the keys have the same bits column by column, although the columns sit at different offsets. |
| KeyPacking.PackFaithfulIffTypesAgree | src/core/join.cpp:484-494 | Words of two sides compare as their keys do, for all values in range, exactly when the type lists agree position by position. |
| MixedWidths.CountsExactIffWidthsAgree | src/core/join.cpp:484-494 | For every graph, the rows found are as many as the rows asked for on all data if and only if every predicate between two relations compares columns of one width, or some relation has no columns. |
| MixedWidths.PlannedCountsExactIff | src/core/plan.cpp:811-831 | For every graph with a complete plan: if and only if every predicate between two relations compares columns of one width. |
| MixedWidths.MixedWidthsMiscount | src/core/join.cpp:484-494 | Every other graph with columns everywhere has data on which rows of the query are missed, and data on which rows are found that the query does not have. |
| CountJoins.WalkAllSize | src/core/join.cpp:834-904 | The counting walk adds up the tuples of the upper side, each as often as the factor for its key says, although it stops at the first empty slot. |
| Lookups.LookedUpAlways | src/core/join.cpp:848-904 | The keys the walk looks up do not depend on what is filed under them. |
| Lookups.TupleKeysLookedUp | src/core/join.cpp:848-904 | No key of an upper tuple is missed, pruned or not. |
| CutWalks.LookedUpIff | src/core/join.cpp:848-904 | Every weight being at least one, the keys looked up are exactly those of the tuples left when the subtrees right of the way to the insertion node are cut off: what the walk has not met yet cannot stop it. |
| Reaching.UpperWalkKeys | src/core/join.cpp:848-904 | Over an upper side without empty records the keys looked up are exactly those of its tuples. |
| SqlJoins.WalkCount | src/core/join.cpp:862-903 | Each fold of the walk counts what its join kind asks of the upper side: joined, preserved, semi, anti, or all rows. |
| SqlJoins.SweepMeaning | src/core/join.cpp:1009-1021 | The sweep adds up exactly the lower tuples whose key has the wanted mark. |
| SqlJoins.CountExactIff | src/core/join.cpp:918-1021 | For every legal kind and preservation, in either mode and however keys are compared, the fused count equals the number of rows of the SQL join if and only if no lower tuple has a marked key that no upper tuple meets. |
| SqlJoins.CountTheorem | src/core/join.cpp:918-1021 | Hence it equals that number when the side on top, should the other be marked, has no empty records. |
| RowCounts.SqlRowsCounted | src/core/join.cpp:908-1021 | The rows of a SQL join counted by positions, kind by kind and side by side: pairs that meet, tuples with a partner, tuples without. |
| Unpruned.ExactOnEveryLowerIff | src/core/join.cpp:848-904 | For packed keys of any types, a join that marks the side beneath is counted right over every such side, of other attributes, if and only if every key the walk looks up is the key of some tuple on top. |
| CutWalks.ExactIffCutAddsNoKey | src/core/join.cpp:848-904 | A join that marks the side beneath is counted right over every such side if and only if every tuple of the side on top so cut off shares its packed key with a tuple of the whole side. |
| Unpruned.UnprunedOuterJoinMiscounts | src/core/join.cpp:848-904 | A concrete right outer join whose upper side denotes nothing: one row by the SQL meaning, zero by the fused count. |
| CountMethods.OutputCounter.Of | src/core/join.cpp:848-903 | Counting one output record returns the walk's size for it and marks exactly the entries under the keys the walk looked up, and none when nothing is to be marked. |
| CountMethods.FactorizedCountJoin | src/core/join.cpp:908-1027 | For any two column type lists: exactly semi and anti joins that preserve neither or both sides are refused as illegal; a count returned equals the number of SQL rows by packed words exactly if the marks are right, and by value where the type lists agree. Where they are right it is, told by positions, the pairs of tuples that meet plus, for each side preserved, its tuples that meet none; for a semi join its side's tuples that meet one, for an anti join those that meet none. Key errors only where the keys do not converge or do not fit. No pruning is asked for. |
| Checked.CheckedAdd | src/core/frep.hpp:60-68 | Returns the sum exactly when it fits 64 bits. |
| Checked.CheckedMul | src/core/frep.hpp:70-90 | Returns the product exactly when it fits 64 bits, by truncating divisions that cannot themselves overflow. |
| Outcomes.Times | src/core/frep.hpp:60-90 | A product of sizes comes back exactly when it fits 64 bits, and is an overflow otherwise. |
| Outcomes.Plus | src/core/frep.hpp:60-90 | The same for sums. |
| FRepMethods.FRepresentation.SubtreeSize | src/core/frep.cpp:181-214 | Returns the number of tuples of the subtree and remembers it; whatever is remembered stays true, although descendants beyond the first empty slot may be left unsized. Without empty records it is refused only when the number does not fit 64 bits. |
| FRepMethods.FRepresentation.PruneEmptySubtrees | src/core/frep.hpp:300-304 | Arms pruning only after every root has been sized. |
| FRepMethods.FRepresentation.ReachedIsSized | src/core/frep.hpp:456-463 | With pruning armed, every record iteration reaches has a remembered size greater than zero, so the unsized ones are never met. |
| FRepMethods.FRepresentation.IterationIsPruned | src/core/frep.hpp:244-286 | With pruning armed, iterating roots and children walks the pruned representation: no empty record is met, and the flat bag is unchanged. |
| FRepMethods.FRepresentation.Count | src/core/frep.cpp:377-381 | The count is the number of tuples of the flat bag, with pruning armed or not, and fits 64 bits; without empty records it is refused exactly when that number does not fit. |
| Equalities.EquivalenceClasses.Find | src/core/plan.cpp:103-109 | Returns the class's root while halving paths, which changes no class and keeps every root a root. |
| Equalities.EquivalenceClasses.Enforce | src/core/plan.cpp:95-101 | The classes become those of the equalities so far and this one. |
| Equalities.EquivalenceClasses.Closed | src/core/plan.cpp:74-86 | The classes are those of all predicates. |
| Equalities.EquivalenceClasses.ShallowestEquivalent | src/core/plan.cpp:115-133 | Returns the attribute of the key's class stored least deep in the tree: the key itself unless another is nearer, and then the least id of the nearest. |
| Equalities.ShallowestIs | src/core/plan.cpp:115-133 | The rewritten key is of the key's class, nothing of the class is nearer to the root, and it is in the tree if the key is. |
| Equalities.ClassesHold | src/core/plan.cpp:95-133 | A tuple that satisfies the enforced predicates has one value per class, so replacing a key by one of its class changes no key value. |
| Equalities.PredicatesInClasses | src/core/plan.cpp:95-101 | Conversely, the two sides of an enforced predicate are in one class. |
| Plans.BestCandidate | src/core/plan.cpp:879-915 | The relation chosen attaches by keys that fit and land on one node, with the most edges of those that do, the first of them on a tie; every crossing relation with more edges, and every earlier one with as many, is refused for cause. |
| Plans.BuildPlan | src/core/plan.cpp:733-957 | The plan starts with the first predicate's left relation, or relation 0, and every step takes all edges to the relation greedily preferred. What is reported is decided by where that ends: too many relations exactly above 500; complete exactly when all relations are joined and no predicate compares two columns of the first one, residual exactly when one does; disconnected exactly when no edge leads on; given up exactly when every relation edges lead to is refused, as too wide exactly if one is refused for its width. A connected graph that is never stuck and has no such predicate gets a complete plan, which joins every relation once and applies every predicate between two relations in exactly one step. |
| Refusals.RefusedIff | src/core/plan.cpp:785-847 | A relation is refused exactly if it would be joined by two or more columns the tree by then does not store at one depth, or by columns that take more than 64 bits on either side, 32 or 64 for each. |
| Answering.NextAnswer | src/core/plan.cpp:1216-1269 | Joining the next relation by packed keys, rewritten through the equalities applied so far, adds exactly the step's comparisons by bits to those the answer so far has passed, whatever the widths. |
| Answering.WholeAnswer | src/core/plan.cpp:1216-1269 | The answer of any covering plan is, as a bag, the rows found by all predicates between two relations: it does not depend on the order of the joins, the rewriting of keys or the strategy. |
| Answering.FoundAsAsked | src/core/plan.cpp:1216-1269 | Where predicates between two relations compare columns of one width those are the rows of the query. |
| Executing.PlannedFits | src/core/plan.cpp:811-831 | No step of a planned graph has keys too wide for a word, for any widths under the strategy it was planned for, and under the naive one where widths agree. |
| NaiveWidths.NaiveRefusesPlan | src/core/plan.cpp:785-847 | A graph of mixed widths with a covering plan the planner's conditions accept, whose last keys fit under level-wise merging and not under naive merging. |
| Executing.RunStep | src/core/plan.cpp:1216-1269 | One round of the loop keeps its invariant: the accumulated representation flattens to the answer of the steps so far, under the tree the strategy builds; it never fails for want of convergence, and is refused as too wide only where its keys are. |
| Executing.ExecuteCount | src/core/plan.cpp:1178-1282 | For every graph, of any widths, every plan the planner accepts and either mode and strategy, a count returned is the number of row combinations whose columns have the same bits wherever a predicate between relations compares them, which is the number of the query's rows where widths agree; missing plans and malformed graphs are refused exactly then, keys as too wide only where a step's are. |
| SelfPredicates.HarmlessIffImplied | src/core/plan.cpp:934-944 | Dropping predicates within a relation never changes a count exactly when the other predicates imply them, or some relation has no columns. |
| SelfPredicates.DroppedPredicate | src/core/plan.cpp:934-944 | A graph with a complete plan, by which the dropped predicate changes a count. |
| NotEqual.EqualTermPlusAnswer | src/core/plan.cpp:1491-1560 | The rows found are those in which the two columns have the same bits, which is what is found with the equality added, and the others, so the difference taken is never negative. |
| NotEqual.EqualTermPlusJoin | src/core/plan.cpp:1491-1560 | The same for the join's rows and the columns' values. |
| NotEqual.ExecuteCountNotEqual | src/core/plan.cpp:1491-1560 | A count returned is the number of positions in the rows found at which the two columns asked for have different bits, which where widths agree is the number of join rows in which their values differ; a request is refused exactly when the columns are missing or on one relation. |
| Scanning.RowGrouper.Find | src/core/join.cpp:261-270 | Probing ends, and finds a group exactly when an equal row was met; otherwise the probe stands on the free place for it. |
| Scanning.RowGrouper.Added | src/core/join.cpp:274-282 | Adds one group and keeps every other; grouping ends exactly when nearly every row of a full sample was distinct or the table would have to grow beyond its budget. |
| Scanning.RowGrouper.Grow | src/core/join.cpp:308-338 | Rehashing keeps exactly the groups. |
| Scanning.MakeScan | src/core/join.cpp:364-444 | For any hash, any budget and any abandonment, the weighted records flatten to the bag of input rows; if grouping survived, no two records carry the same values. |
| KeySets.KeySet.InsertAll | src/core/plan.cpp:261-298 | The set gains exactly the given keys, the sentinel value among them, over any number of growths. |
| KeySets.KeySet.Grow | src/core/plan.cpp:333-352 | Rehashing into a larger table keeps the contents. |
| KeySets.KeySet.Contains | src/core/plan.cpp:300-318 | Probing ends and answers membership, of the sentinel value too. |
| ShardedSets.ShardedKeySet.FillShard | src/core/plan.cpp:706-716 | Filling a shard writes that shard only, and leaves it holding what all workers put into its buckets. |
| ShardedSets.ShardedKeySet.Fill | src/core/plan.cpp:640-716 | Together the shards hold exactly the surviving keys, each key in the shard its hash names. |
| ShardedSets.ShardedKeySet.Contains | src/core/plan.cpp:427-491 | Asking the one shard a key belongs to answers membership in all of them. |
| Int128s.Negate | src/core/int128.hpp:75-80 | Negates every value above the least one. |
| Int128s.CheckedAdd128 | src/core/int128.hpp:87-96 | Returns the sum exactly when it fits 128 bits. |
| Int128s.MultiplyWide | src/core/int128.hpp:104-124 | The four partial products always make up the exact product of two 64-bit values. |
| Int128s.CheckedMul128By64 | src/core/int128.hpp:139-173 | Returns the product exactly when its magnitude is below 2^127; no step of the limb loops leaves 64 bits. |
| Int128s.ToString | src/core/int128.hpp:179-213 | Reading the rendering back gives the value, and no leading zero is shown. |
| Sums.ProductCross | src/core/frep.cpp:290-302 | The sum of products over a product of independent bags is bilinear in their counts, sums and sums of products. |
| Folds.SubtreeSum | src/core/frep.cpp:336-375 | A sum returned is the sum of the column over the subtree's tuples; dividing the count by a slot's count is exact. |
| Folds.CombineProductSums | src/core/frep.cpp:290-302 | Two measurements combine into the measurement of the product of their bags. |
| Folds.SubtreeProductSum | src/core/frep.cpp:216-278 | Count, both sums and the sum of products returned are those over the subtree's tuples. |
| Folds.SubtreeExtreme | src/core/frep.cpp:304-334 | The value returned is the least or greatest of the column over the subtree's tuples. |
| Groups.Combine | src/core/plan.cpp:2158-2175 | Folds of two independent bags combine into the fold of their product. |
| Groups.Alternatives | src/core/plan.cpp:2177-2190 | Folds of two bags combine into the fold of their union. |
| GroupFolds.GroupFold.SubtreeFold | src/core/plan.cpp:2223-2271 | The fold of a subtree without keys is that of its tuples: count, sums and extremes. |
| GroupFolds.GroupFold.Run | src/core/plan.cpp:2214-2354 | Wherever the keys are stored, also scattered over sibling branches, the table maps exactly the key values of the flat bag to the fold of the tuples that carry them, an extreme being tainted by a zero only when the keys part. |
| GroupFolds.ExtremeExactIff | src/core/plan.cpp:2344-2352 | A group's extreme is exact if and only if the keys do not part, or some row of the group reaches zero from the losing side. |
| GroupFolds.PartedKeysSpoilMinimum | src/core/plan.cpp:2344-2352 | A one-row relation whose minimum 5 is reported as 0. |
| GroupTables.TableAnswers | src/core/plan.cpp:2440-2470 | What a table of groups says about the rows grouped, kind by kind, by positions and bounds. |
| Building.BuildRepresentation | src/core/plan.cpp:1792-1866 | What is built flattens to the rows found, which are the join's rows where widths agree, and comes with the classes its equalities make. |
| Building.ExecuteSum | src/core/plan.cpp:2037-2080 | Returns the sum of the column over the rows found and their number, for any widths; refuses exactly missing plans, missing columns and malformed graphs. |
| Building.ExecuteProductSum | src/core/plan.cpp:1992-2035 | Returns the sum of the product of two columns over the rows found, in 128 bits, and their number. |
| Building.GroupBy | src/core/plan.cpp:2365-2480 | There is a group for each combination of values some row found carries in the columns read, and no other. It has the number of those rows, and per aggregate, by its kind: their number, what the column adds up to over them, or the value that one of them carries and none exceeds or undercuts (against a zero no row carries, where the keys part). Where widths agree the rows are the join's and the columns read are those asked for. Malformed requests are refused, and only those. |
| Enumerating.TupleWalker.EnumerateRecord | src/core/enumerate.hpp:95-143 | With the records fixed on the continuation stack, the shared buffer shows each tuple in turn when it is emitted, and is not rolled back in between. |
| Enumerating.Enumerate | src/core/enumerate.hpp:157-180 | Terminates; what is emitted is a prefix of the flat tuples in nested-loop order, each by its weight, and the first `min(limit, count)` of them unless the caller turns one away. |
| Materializing.ExecuteMaterialize | src/core/plan.cpp:1870-1944 | The rows returned are the first of the rows found in some order, as many as the limit asks for or all for a limit of 0, each with the value of every column in its place. |
| Slicing.Sliced | src/core/plan.cpp:1295-1358 | The rows kept of each relation are those whose key column hashes into the bucket, all of them where there is no key column. |
| Slicing.SlicedJoin | src/core/plan.cpp:1295-1358 | For any columns and widths, joining the bucketed relations finds exactly the rows all of whose keyed columns hash into the bucket. |
| Slicing.BucketsPartition | src/core/plan.cpp:1301-1344 | Where every row has one value in its keyed columns the buckets partition the rows, whatever the hash and their number. |
| Slicing.FinerBucketsPartition | src/core/plan.cpp:1682-1740 | The buckets `slice + part * slices` modulo `slices * factor` never hold more than bucket `slice` modulo `slices`, and partition it where rows have one value in their keyed columns. |
| Slicing.BucketsExactIff | src/core/plan.cpp:1295-1358 | On given data the buckets add up to the rows found if and only if every such row falls into one bucket in all its key columns. |
| SliceKeys.ChooseSliceColumns | src/core/plan.cpp:1380-1438 | One pass over all columns chooses the columns of the best class; the empty choice when there is none. |
| SliceKeys.BestIs | src/core/plan.cpp:1380-1438 | The class chosen reaches two relations and none that does beats it, by the base relation first and reach second; nothing is chosen exactly when none reaches two. |
| SliceKeys.RankSliceColumns | src/core/plan.cpp:1453-1487 | Every class that reaches two relations, once, the widest first and the lower root on a tie. |
| SliceChoices.ChosenIs | src/core/plan.cpp:1380-1438 | Told from the classes alone: nothing is chosen exactly if no class reaches two relations; otherwise in each relation the first column of the class that goes before all others that do, by reaching the relation the plan starts with, then by how many relations it reaches, then by the lesser root. |
| SliceChoices.RankedIs | src/core/plan.cpp:1453-1487 | The same for the list of classes: complete, without repetition, by the number of relations reached and then by root. |
| SliceExactness.ExactIffCoherent | src/core/plan.cpp:1366-1438 | Buckets add up, for all data, hash functions and numbers of buckets, if and only if the key columns are of one width and equal by the predicates the joins apply, or some relation has no columns. |
| SliceExactness.PlainGraphsCohere | src/core/plan.cpp:1440-1487 | Without predicates inside one relation every class of columns of one width may be sliced on, not only the widest, and no other. |
| SliceExactness.SelfPredicateLosesRows | src/core/plan.cpp:1380-1438 | A graph with a covering plan whose chosen class loses rows. |
| SliceMethods.CoherentUncut | src/core/plan.cpp:1366-1438 | Where the chosen columns are of one width and equal by the predicates the joins apply, no row found is cut by the buckets, on any data. |
| SliceMethods.PlainUncut | src/core/plan.cpp:1440-1487 | Where every predicate compares columns of one width in two relations, no class at all cuts a row. |
| SliceMethods.SliceTestIs | src/core/plan.cpp:1295-1358 | A row is in a bucket of several exactly if in every relation the chosen class has a column on, the hash of its value as an unsigned word leaves the bucket's number. |
| SliceMethods.ExecuteCountSlice | src/core/plan.cpp:1562-1577 | Counts the rows found all of whose keyed columns fall in the bucket, for any widths and classes; a missing key, a missing plan and a malformed graph are each refused exactly then. |
| SliceMethods.CountRefined | src/core/plan.cpp:1682-1740 | Counts the rows in the finer buckets congruent to a bucket: never more than the bucket's, and as many where no row is cut; each refusal is exact. |
| SliceMethods.CountBySecondKey | src/core/plan.cpp:1593-1680 | Counts a bucket in pieces by another class: never more than the bucket's rows, and as many where no class cuts a row; refused for want of a key exactly when there is no other class or it is not allowed. |
| SliceMethods.ExecuteCountSliceWithinMemory | src/core/plan.cpp:1682-1740 | Whichever refinement succeeds, the count is at most the bucket's, and the bucket's where no class cuts a row; refusals are exact. |
| SliceMethods.ExecuteCountSliced | src/core/plan.cpp:1742-1775 | The buckets' counts add up to the number of rows found that are in some bucket, which are all rows found where none is cut, and the join's rows where widths agree too. |
| SliceMethods.ExecuteCountAtMost | src/core/plan.cpp:2569-2629 | Never returns more than the limit or than the rows found; where no class cuts a row it returns the rows found if they are fewer than the limit and the limit otherwise, having read the fewest buckets that hold that many, or all; refusals are exact. |
| SliceMethods.ExecuteExists | src/core/plan.cpp:2631-2636 | Returns 1 only if a row is found, and 1 or 0 as there is one where no class cuts a row. |
| SliceMethods.ExecuteCountWithinMemory | src/core/plan.cpp:2638-2666 | Whichever attempt succeeds, the count is at most the number of rows found, and that number where no class cuts a row. |
| SliceMethods.ExecuteMaterializeWithinMemory | src/core/plan.cpp:1946-1990 | Whichever attempt succeeds, the rows are the first, as many as the limit asks for, of some order of a part of the rows found, which is all of them where none is cut. |
| GroupSlices.GroupCounts.MergeGroups | src/core/plan.cpp:2510-2555 | Merging tables in place gives the table of both bags together, where a group's rows may be in both. |
| GroupSlices.ExecuteGroupBySlice | src/core/plan.cpp:2494-2508 | The groups are those of the rows found that are in the bucket with all their keyed columns, and answer the request for them kind by kind; each refusal is exact. |
| GroupSlices.GroupAllSlices | src/core/plan.cpp:2494-2555 | Grouping bucket by bucket, in any order, and merging is grouping the rows that are in some bucket, and answers the request for them kind by kind; they are all rows found where none is cut, and the join's where widths agree too. |
| Protocol.StepInv | src/duckdb/physical_factorized.cpp:721-886 | Every step of every thread keeps the invariant. |
| Protocol.AnswersOnce | src/duckdb/physical_factorized.cpp:525-886 | In every interleaving, at every point: nothing, or the sum of all buckets once, or rows of the replaced plan each once, never both; at most one thread ever drives the replaced plan, and nobody scans before it has ended. |
| Protocol.WholeAnswer | src/duckdb/physical_factorized.cpp:525-886 | When every thread has finished, the answer is a whole one: the sum of all buckets, or all rows of the replaced plan. |
| Protocol.SomeoneMoves | src/duckdb/physical_factorized.cpp:571-671 | While some thread is not at rest, some thread can take a step in which nothing fails; helpers wait only for a driver that can. |
| Protocol.CanFinish | src/duckdb/physical_factorized.cpp:525-886 | From every state reached with nobody broken and a plan to fall back to, the threads can all finish, with a whole answer. |
| Protocol.RunsEnd | src/duckdb/physical_factorized.cpp:525-886 | Every run ends, however the threads are scheduled; its length is bounded by threads, buckets and rows. |
| CleanRuns.StaysCalm | src/duckdb/physical_factorized.cpp:721-886 | While no thread throws, every bucket's count comes back and the total fits 64 bits, there is at every point no error, no fallback, and nobody that has thrown. |
| CleanRuns.TotalIff | src/duckdb/physical_factorized.cpp:525-886 | A query that finishes is answered by its total exactly in such runs, with or without a plan to fall back to; in any other there is such a plan and its rows, all of them, are the answer. |
| Operator.CountAnswered | src/duckdb/physical_factorized.cpp:764-885 | With the buckets' counts as the executors return them, and nothing failing, what is emitted when all have finished is the number of rows in some bucket, which is that of the rows found where none is cut and of the join where widths agree too; if something failed, all rows of the replaced plan. |
| Acyclic.Diamond | src/core/plan.cpp:164-212 | Two different removals from one hypergraph each lead to a common one by one more. |
| Acyclic.AnyMaximalAgrees | src/core/plan.cpp:164-212 | Any two maximal sequences of removals agree on whether anything is left. |
| Acyclic.IsAcyclic | src/core/plan.cpp:150-213 | Terminates, and says yes exactly when some sequence of removals empties the hypergraph in which each set of classes occurs as often as there are relations joined by exactly those, although occurrences are counted once per round; a graph naming a missing relation is not called acyclic. |
| Acyclic.HyperIs | src/core/plan.cpp:164-177 | The hyperedges taken apart are the relations' non-empty sets of join classes, each as often as a relation has it. |
| JoinOrders.EmptiedIffOrdered | src/core/plan.cpp:150-213 | A hypergraph can be emptied exactly if its edges can be put in an order in which what each shares with those before it is all in one of them. |
| JoinOrders.TriangleStays | src/core/plan.cpp:150-213 | Three edges that pairwise share a vertex cannot be emptied. |
| JoinOrders.ChainGoes | src/core/plan.cpp:150-213 | A chain can. |
| Reduction.MatchIsJoinRow | src/core/plan.cpp:568-730 | Rows that agree along the edges of the tree make up a row of the join. |
| Reduction.JoinRowMatches | src/core/plan.cpp:568-730 | Conversely every row of the join comes from rows that do. |
| Reduction.BestIsExtreme | src/core/plan.cpp:690-730 | The best value over the root's surviving rows is the extreme over all join rows, and there is one exactly when the join has a row. |
| ReduceMethods.ParallelWorkers | src/core/plan.cpp:531-537 | A power of two, at most 64, the largest within the threads given. |
| ReduceMethods.SpanTree | src/core/plan.cpp:568-607 | The walk makes a tree of the relations it meets, each below the one it was met from, children after parents, no predicate used twice; no predicate leads out of what it has met. |
| ReduceMethods.ReduceKeys | src/core/plan.cpp:640-716 | Sequential or in two rounds over shards, the keys kept are exactly those of the rows whose every child has a partner. |
| ReduceMethods.KeptAreSurviving | src/core/plan.cpp:609-688 | Children being reduced first, those are the keys of rows that reach the leaves below them. |
| ReduceMethods.ExecuteExtremeReduced | src/core/plan.cpp:553-731 | `any` says whether the join has a row, and then some join row carries the value and none a lesser one, or a greater one as asked; the early exit on an empty relation included. Missing columns, graphs that are not reducible and graphs with relations severed from the root are refused, each exactly then. |

## Left out

- TreeSurgery.TreeNode.MergeLevelwise: leaves out the lock flags of merged nodes, which only say which child lists are shared between building threads; attaching the lower tree and copying trees are on values (`JoinMethods.MergeTrees`), and the walk to the lowest common ancestor is the recursion its loop amounts to.
- Transforming.Restructure: names input nodes by their path from the root where the program numbers them depth first, and keeps contexts as maps from nodes to records where it has offsets into one array.
- JoinMethods.FactorizedJoin: addresses insertion records by the order they are created in, with their child lists in a store, where the program holds pointers; pruning is applied to the value.
- LowerMethods.LowerSide.IterateKeyPath: collects the items the program passes to a callback one by one.
- HashTables.ChainingHashTable.Finalize: chains are indexes into the entries instead of pointers, and a mask by a power of two is a remainder; the capacity charge that may throw is left to the callers' failure.
- KeyPacking.PackInjective: or-ing disjoint bits is written as adding them.
- Executing.ExecuteCount: predicates within a relation are left out of the rows, as the program does, with the exact condition in `SelfPredicates.HarmlessIffImplied`; the rows are those found by comparing bits, with the exact condition under which they are the query's in `MixedWidths.PlannedCountsExactIff`.
- Scanning.MakeScan: the verdict of the sample that decides whether to group is a parameter, any value of which is covered; the sample itself is not modelled.
- Int128s.CheckedMul128By64: the value -2^127 is excluded, as its magnitude does not fit the program's own negation; the same holds for `Int128s.Negate` and `Int128s.ToString`.
- Building.ExecuteProductSum: assumes a complete plan and existing columns, which its callers check.
- Building.GroupBy: groups are a map, not a list in the order the program happens to emit; a minimum or maximum is exact where `GroupFolds.ExtremeExactIff` says so; where widths are mixed a group's key is the value of the column its requested column is rewritten to, as in the program.
- Enumerating.Enumerate: asks that no two columns land in one position, and keeps the program's nested callbacks as an explicit stack.
- SliceMethods.ExecuteCountSlice: the setting that allows a second key is a parameter of the executors that use one, and the conversions of a bucket's failure into messages are not modelled.
- ReduceMethods.ReduceKeys: the workers of a round run one after the other; that they write disjoint tables is what the frames of `ShardedSets.ShardedKeySet.FillShard` state. The blocks a bucket grows by are sequences.
- Protocol.AnswersOnce: a thread throws only while it holds an uncounted bucket or as the last finisher; the debugging setting that makes a query fail on purpose, the grouped and sum-of-product operator paths and calls that re-enter with a full output chunk are left out.
- Running out of memory, giving up on a slow or poorly compressing plan, and threads abandoning together are nondeterministic failures without the measurements behind them.
- Contracts of operations that may fail this way say what holds when a value comes back, not that one does.
- When an executor reports that a number left 64 bits is not stated: an intermediate product may leave them although the answer would not. Single sums and products overflow exactly when they do not fit, and so does sizing a representation without empty records (`FRepMethods.FRepresentation.Count`).
- Byte layout, arenas, segments and string rendering of trees and plans: records are values, and the memo of sizes is keyed by the path to a record.
- Cost estimates, statistics and calibration: they choose between plans and never change an answer.
- Averages, NULLs and decimal formatting of the operator's output: done outside the core on values the core returns.
- Matching queries and scanning tables through the database's own types: a relation is a sequence of rows of integers within their column's range.
