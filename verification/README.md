# Verified model of the commitment, hashing and circuit code

The repository proves neural-network and SHA-2 computations with a GPU prover over the Goldilocks field (P =
2^64-2^32+1). This project models the parts in which an optimised, flattened or in-place form has to agree with a
simple definition, and proves that it does. `dafny verify dfyconfig.toml` checks everything.

**Memory-efficient Merkle commitment** (`Field` to `SameTree`). Instead of storing a low-degree extension, one
coefficient buffer is rescaled from coset to coset, transformed, hashed into a bit-reversed block of leaves,
transformed back and finally unscaled. The kernels are modelled as the loops their threads amount to on a mutable
array, the transform as its butterfly stages, and the meaning of the stages (evaluation at powers of a root of unity,
and an exact inverse) is proved, not assumed. The in-place build, the build with some columns stored in extended form
and the build in segments with saved sponge states are each proved against the rows of the extension, and then against
each other.

**Flat Merkle trees** (`Layouts` to `MerkleGather`). The recursive halving of one buffer, where each layer lies in it,
when its assertions hold, what folding a path proves, in which layout the cells are kept, and which of them the
gathering kernel reads. A build takes two parameters for its hash. `perm` is the permutation of its leaf kernel, an
arbitrary function on states. `hash` is the node kernel: a permutation, and the layout in which it reads and stores a
layer.

**Copy permutation** (`Scans` to `CopyPermutation`). The data-parallel pipeline (number, stable sort, run-length
encode, scan, mark, scan, scatter), and the permutation that it produces: its cycles, and what being invariant under
it means.

**Algebraic sponge** (`SpongeSpec`, `Sponge`). The buffered sponge as a class, in both absorption modes and for every
round function, against the one-shot function on the list of everything absorbed.

**SHA-256 and SHA-512 circuits** (`BitStrings` to `FirstPrimes`, and `Sha2Sigmas` to `Sha2Abc512`). The builder is a
class with its list of constraints. Its ghost field `models` is the set of *all* assignments that satisfy them, so
every gadget is specified for every satisfying assignment; `honest` is one of them, so the constraints are also
satisfiable. `Sha2` states FIPS 180-4 on `Variant` of the family with words of one or two 32-bit limbs. For the digest
of "abc" it is evaluated on bit vectors (`Sha2Words`, `Sha2Traces`), whose operations are proved to be those on bit
strings.

**Smaller parts.** The external matrix of Poseidon2 (`Mds`), the allocator of specialized columns
(`SpecializedColumns`) and the matrix-vector circuit (`MatVec`).

Methods follow the code's loops and in-place updates; ghost parameters (`pre`, `v`, `rest`, `post`, `spec`) name the
parts of a buffer and the specification that the result is compared with. A result `ok` tells whether every assertion
of the code held.

## What the code does differently from what one may expect

These are proved as the code has them.

* `mul_exp` and `pad_coset` divide the column length by 32 to get the distance between a thread's elements. Below 32
  coefficients no thread has work: the in-place builds then hash values on the subgroup instead of the coset
  (`SmallDegrees.CosetExactlyFromThirtyTwo`), storing some columns beforehand changes the tree
  (`PartialTree.SplitMattersExactly`), and the segmented build does not see the polynomials at all
  (`SameTree.ShortColumnsSameLeaves`, `SameTree.SegmentedSameExactlyFromThirtyTwo`). The statements that need the
  coset are therefore made for at least 32 coefficients (and for constants, where the point does not matter).
* The leaf kernels store the four cells of a digest together. So does the node kernel of Poseidon, but that of
  Poseidon2 (era-boojum-cuda/native/poseidon2_single_thread.cu:32-36) reads and stores a layer column by column, which
  is how the gathering kernel and the tests address every layer. So on a Poseidon tree a sibling is never gathered
  from its own four cells (`MerkleGather.SiblingNeverReadWhole`), on a Poseidon2 tree it always is, above the leaves,
  and the leaves themselves are missed in both (`MerkleGather.SiblingsGatheredExactly`). And the first layer of a
  Poseidon2 tree compresses what its node kernel sees, which from two leaves on is not always the digests of the
  leaves (`Layouts.SeenAsIsExactly`).
* The partial and the segmented build launch the leaf kernels of Poseidon whatever `P` is
  (era-boojum-cuda/src/merkle_tree_segmented.rs:96, 278), but the node kernel of `P`. Statements that compare leaves
  of two builds are therefore made for one and the same `perm`.
* The transforms refuse a size of one, so no tree is built for polynomials of a single coefficient unless all of them
  are stored in extended form (`InPlaceTree.BuildInPlace`, `PartialTree.BuildPartial`).
* The leaf kernels do not clear the rest of the rate in the last round, and skip the permutation for at most four
  columns; the tests of era-boojum-cuda/src/poseidon.rs:489-520 clear it and always permute. The model follows the
  kernels; `TestedLeaves.KernelMeetsTests` says exactly for which rows the two agree.
* A segmented build with a buffer of fewer than eight extended columns divides by zero; with no columns at all it
  writes nothing.
* The copy permutation recognises the placeholder only when it is the greatest index (`CopyCycles.PlaceholdersFixed`).
* `assert!(p > 1)` refuses the lengths for which a single padding bit would do (447 modulo 512, 895 modulo 1024),
  which FIPS 180-4 allows.
* A gate placed with zero repetitions reserves the columns of one, on which then nothing is placed
  (`SpecializedColumns.RepetitionsFill`).

## Model

| member | source | states |
|---|---|---|
| Roots.RootOfOrderTwo | era-boojum/src/field/goldilocks/mod.rs:108-109 | The subgroup generator has order exactly 2^32: its 2^31-th power is minus one |
| Roots.SubgroupGenerator | era-boojum/src/field/goldilocks/mod.rs:108-109 | It is the power of the coset shift 7 with the exponent (P-1)/2^32 |
| Roots.TwiddleIsZeta | era-boojum-cuda/src/ntt.rs:222-247 | One bit-reversed twiddle table serves every stage: entry i is the root that splits region i, whatever the stage |
| Ntt.NttIsEvaluation | era-boojum-cuda/src/ntt.rs:764-843 | After all launches of the forward transform, position i holds the value of the polynomial at the power of the root of unity given by the bit reversal of i |
| Ntt.InverseUndoesForward | era-boojum-cuda/src/ntt.rs:764-843 | The transform back from bit-reversed order, including the division by the size in the last launch, restores every coefficient |
| Bits.RevInvolution | era-boojum-cuda/src/merkle_tree_segmented.rs:337 | Reversing the bits of an index twice gives the index back, so bit reversal permutes the block numbers |
| Bits.RevConcat | era-boojum-cuda/src/merkle_tree_segmented.rs:337 | The reversal of a concatenation is the swapped concatenation of the reversals: a reversed block number in front of a reversed point number |
| Device.ThreadPowers | era-boojum-cuda/native/utils.cu:72-82 | The square-and-multiply loop of a thread ends with the power of the multiplier for its first element and the factor between its elements |
| Device.RescaleInPlace | era-boojum-cuda/native/utils.cu:59-92 | All threads together rescale one column in place as `MulExp` says and leave the rest of the buffer alone: element j times m^j, and nothing at all below 32 elements |
| Device.ExchangeInPlace | era-boojum-cuda/native/ntt_n2b.cuh:1617-1643 | The threads of one exchange region turn its two halves into their butterfly (with its scaling, backwards) and touch nothing else |
| Device.StageInPlace | era-boojum-cuda/native/ntt_n2b.cuh:1602-1657 | One launch over one column in place is one stage of the transform on values |
| Columns.BatchLaunch | era-boojum-cuda/src/ntt.rs:222-247 | One launch over a batch applies the column operation to every column of the region and leaves what lies around it unchanged |
| Columns.BatchMulExp | era-boojum-cuda/src/integration.rs:294-318 | A batch of columns is rescaled in place, column by column |
| Columns.BatchForward | era-boojum-cuda/src/ntt.rs:186-249 | Refuses exactly a size of one (the assertion log_n >= 1), leaving the buffer alone; otherwise the launches, one per stage, leave the transform of every column of the batch |
| Columns.BatchInverse | era-boojum-cuda/src/ntt.rs:186-249 | The same for the backward launches and the inverse transform |
| Coset.CosetScaleTwice | era-boojum-cuda/src/merkle_tree_segmented.rs:304-312 | Rescaling by a and then by b is rescaling by ab, which is why one buffer can walk from coset to coset |
| Coset.EvalCosetScale | era-boojum-cuda/src/merkle_tree_segmented.rs:304-329 | The rescaled polynomial at x is the original one at mx |
| Coset.PassCoversBlock | era-boojum-cuda/src/merkle_tree_segmented.rs:299-340 | Point q of pass i is point Rev(i) * 2^k + q of the bit-reversed extension domain |
| Coset.ExtensionPoints | era-boojum-cuda/src/merkle_tree_segmented.rs:299-340 | The first point of that domain is 7, and the point with the next bit-reversed index is the one before times the root of unity |
| Coset.ExtensionIsEvaluation | era-boojum-cuda/src/ntt.rs:557-608 | Zero-padding, shifting by the generator and transforming gives, at position p, the value at the p-th point of the coset in bit-reversed order |
| Leaves.AbsorbRowSplit | era-boojum-cuda/native/poseidon_utils.cuh:28-36 | A row cut after whole rounds can be hashed in two parts: the second continues from the state of the first |
| Leaves.OneRound | era-boojum-cuda/native/poseidon_utils.cuh:29-38 | One round of at most eight values: they take the first places of the state, in their order, before the rest of it; then the permutation, when there is hashing |
| Leaves.RoundByRound | era-boojum-cuda/native/poseidon_utils.cuh:29-38 | More values are absorbed eight by eight |
| Leaves.LeafValueAt | era-boojum-cuda/native/poseidon_utils.cuh:31-34 | The kernel address `row + col * rows_count * count` is value number `offset` of the leaf, column after column |
| Leaves.LeafThread | era-boojum-cuda/native/poseidon_utils.cuh:8-54 | One thread absorbs the values of its leaf in rounds of eight, keeps old state elements where the columns run out, and permutes only when told to |
| CosetPasses.ShortRowDigest | era-boojum-cuda/native/poseidon_utils.cuh:36-52 | The digest of at most four columns is the row itself, before zeros |
| CosetPasses.OneRoundDigest | era-boojum-cuda/native/poseidon_utils.cuh:29-52 | The digest of five to eight columns is the first four elements of the permuted row before zeros |
| CosetPasses.LeafIsEvaluation | era-boojum-cuda/src/merkle_tree_segmented.rs:304-340 | What leaf q reads after rescaling and transforming is every polynomial of the buffer at the point of the pass |
| CosetPasses.LeavesPart | era-boojum-cuda/src/merkle_tree_segmented.rs:205-236 | The digests of the rows of a block are written at the output offset and nothing else changes |
| TestedLeaves.KernelMeetsTests | era-boojum-cuda/src/poseidon.rs:489-520 | The digest of a row is the one that the tests expect, for every permutation, if and only if the row is empty, or has more than four values that fit one round, or has more than four values in whole rounds |
| TestedLeaves.ThreadMeetsTests | era-boojum-cuda/native/poseidon_utils.cuh:29-38 | The same with any number of rows per hash, where the kernel looks at the number of columns |
| TestedLeaves.Differ | era-boojum-cuda/native/poseidon_utils.cuh:29-38 | For every other row an invertible permutation is constructed with which the digests differ |
| TestedLeaves.TestInputDiffers | era-boojum-cuda/src/poseidon.rs:553-556 | The input size of the tests, 125 columns of two rows, is such a row |
| InPlaceTree.BlockOfPass | era-boojum-cuda/src/merkle_tree_segmented.rs:337 | Leaf p is written in pass i exactly when p lies in block Rev(i): every block is written exactly once |
| InPlaceTree.BlockIsExtension | era-boojum-cuda/src/merkle_tree_segmented.rs:303-340 | The rows hashed in pass i are the rows of the extension from Rev(i) * 2^k on |
| InPlaceTree.CosetPass | era-boojum-cuda/src/merkle_tree_segmented.rs:303-360 | One iteration: the buffer moves on to the next coset and back to coefficients, the leaves of this pass become final and all other results stay; it fails exactly for a single coefficient, before any leaf is written |
| InPlaceTree.BuildLeavesInPlace | era-boojum-cuda/src/merkle_tree_segmented.rs:297-376 | After all passes the leaves are the digests of the rows of the extension in bit-reversed order, and the coefficients are back to what they were; it fails exactly for a single coefficient, with no leaf written |
| InPlaceTree.BuildTree | era-boojum-cuda/src/merkle_tree_segmented.rs:377 | With the leaves in the first half, the nodes fill the second, with either node kernel; it fails exactly when more layers are asked for than the tree has |
| InPlaceTree.BuildInPlace | era-boojum-cuda/src/merkle_tree_segmented.rs:281-380 | The whole build, for every rate and number of columns: it fails exactly for a single coefficient (the assertion of the transform) or when 2^(layers_count-1) exceeds the number of leaves; otherwise coefficients (and all around them) are restored, the leaves are the digests of the extension rows, and the layers of the node kernel, whichever it is, are above them |
| SmallDegrees.CosetExactlyFromThirtyTwo | era-boojum-cuda/native/utils.cu:64-70 | The leaves lie on the shifted coset if and only if there are at least 32 coefficients; below that no leaf does |
| PartialTree.PartialThread | era-boojum-cuda/native/poseidon_utils.cuh:56-82 | One thread absorbs the stored columns first and the computed ones after them, as one row |
| PartialTree.PartialPass | era-boojum-cuda/src/merkle_tree_segmented.rs:408-474 | One iteration with stored columns: the leaves of the pass become final, the stored columns are not changed, the others return to coefficients; it fails exactly when there are others and they have a single coefficient |
| PartialTree.BuildPartial | era-boojum-cuda/src/merkle_tree_segmented.rs:382-496 | The whole build for every split 0 <= num_ldes <= num_ntts: stored columns untouched, other coefficients restored, tree over the joined rows; it fails exactly when columns of a single coefficient are left to transform, or when there are too many layers |
| PartialTree.SplitDoesNotMatter | era-boojum-cuda/src/merkle_tree_segmented.rs:438-452 | If the stored columns are the extensions of their polynomials, every row is the row of the in-place specification of all polynomials, for at least 32 coefficients, or for one (where only a build with every column stored gets past the assertion of the transform) |
| PartialTree.SameLeaves | era-boojum-cuda/src/merkle_tree_segmented.rs:382-496 | Hence both builds have the same leaves, so the same tree, when both hash their leaves with the same permutation |
| PartialTree.SplitMattersForSmallDegrees | era-boojum-cuda/native/utils.cu:64-70 | Between 2 and 16 coefficients it does matter: with the polynomial X stored beforehand every single row differs |
| PartialTree.SplitMattersExactly | era-boojum-cuda/src/merkle_tree_segmented.rs:438-452 | So storing columns never changes a row, whatever the polynomials, if and only if there is one coefficient or there are at least 32 |
| SegmentedKernel.NoSuperfluousThreads | era-boojum-cuda/src/merkle_tree_segmented.rs:70-86 | For a power-of-two number of leaves the launch has no superfluous thread, so the three parts of the saved states are adjacent |
| SegmentedKernel.LaunchLeaves | era-boojum-cuda/src/merkle_tree_segmented.rs:54-97 | Every leaf ends in the state that its row leads to from the loaded (or zero) state, stored as a state or as a digest; the alignment assertion is the only way to fail |
| SegmentedKernel.PartsLeftBehind | era-boojum-cuda/native/poseidon_utils.cuh:13-45 | A saved state lies in three parts of four elements, first to last, and is the state that is loaded again |
| SegmentedTree.PadColumn | era-boojum-cuda/native/ntt_n2b.cuh:999-1032 | One column copied into the cleared buffer with element j times g^j; columns of fewer than 32 elements are not copied |
| SegmentedTree.ExtendSegment | era-boojum-cuda/src/ntt.rs:557-608 | A segment of columns is padded and transformed into the buffer, the source columns unchanged; refused exactly when the extension has a single value |
| SegmentedRounds.LeafStateConcat | era-boojum-cuda/src/merkle_tree_segmented.rs:128-164 | The state after columns a and then b, continued from a saved state, is the state after a + b in one pass, when a fills whole rounds |
| SegmentedRounds.SegmentRound | era-boojum-cuda/src/merkle_tree_segmented.rs:128-164 | One round: from the states after the columns so far to the states (or digests) after the next ones as well; it fails exactly where the transform or the alignment assertion does, with the results unchanged |
| SegmentedBuild.RoundPlan | era-boojum-cuda/src/merkle_tree_segmented.rs:124-134 | Every round has between one column and the buffer-ful, all but the last a whole buffer-ful, and the last ends at the last column |
| SegmentedBuild.RoundsPartition | era-boojum-cuda/src/merkle_tree_segmented.rs:124-134 | Column c is hashed in round c / num_ntt_per_round and in no other |
| SegmentedBuild.SizesOfPowers | era-boojum-cuda/src/merkle_tree_segmented.rs:122-125 | Every choice of powers of two meets the size requirements of the build |
| SegmentedBuild.BuildLeavesSegmented | era-boojum-cuda/src/merkle_tree_segmented.rs:99-166 | For every number of columns: it fails exactly when the buffer is smaller than RATE extended columns (division by zero) or some column is to be extended to a single value (the assertion of the transform); otherwise the alignment assertion never fires and each leaf has the digest of one pass over all columns |
| SegmentedBuild.BuildSegmented | era-boojum-cuda/src/merkle_tree_segmented.rs:168-203 | The whole build: leaves as above and the nodes, with either node kernel, written over the second third of the saved states, with the exact condition for failure |
| SameTree.SegmentedLeafIsExtensionLeaf | era-boojum-cuda/src/merkle_tree_segmented.rs:99-166 | From 32 coefficients on, with one row per hash, the digests are the leaves of the in-place build |
| SameTree.SegmentedSameExactlyFromThirtyTwo | era-boojum-cuda/src/merkle_tree_segmented.rs:99-166 | All polynomials get the leaves of the in-place build if and only if there are at least 32 coefficients |
| SameTree.OneDiffers | era-boojum-cuda/native/ntt_n2b.cuh:1004-1008 | Below, every leaf of the constant polynomial one differs |
| SameTree.ShortColumnsSameLeaves | era-boojum-cuda/native/ntt_n2b.cuh:1004-1008 | Below 32 coefficients the leaves do not depend on the polynomials at all: any two inputs of the same length give the same |
| Layouts.SeenStored | era-boojum-cuda/native/poseidon_utils.cuh:85-105 | A layer that a node kernel has stored is seen by the next launch as it was computed, in either layout |
| Layouts.SeenAsIsExactly | era-boojum-cuda/native/poseidon2_single_thread.cu:32-36 | Leaves, which are stored with adjacent cells, are always seen as they are if and only if the node kernel reads adjacent cells or there is at most one |
| MerkleNodes.NodesKernel | era-boojum-cuda/native/poseidon_utils.cuh:85-134 | For all pairs, in either layout: node i is the first four elements of the permutation of digest 2i, digest 2i + 1 and zeros, as the kernel sees them in the layer, and its cells are stored in the same layout |
| MerkleNodes.AdjacentNode | era-boojum-cuda/native/poseidon_utils.cuh:107-134 | With adjacent cells: the same on the digests as they are stored |
| MerkleNodes.ByColumnNode | era-boojum-cuda/native/poseidon_utils.cuh:85-105 | Column by column: cell c of node i, at place i of column c, from the eight cells that thread i loads, in the order in which they enter the state |
| MerkleNodes.AssertionsCharacterised | era-boojum-cuda/src/poseidon.rs:271-288 | All length assertions of all recursive calls hold if and only if the layer is a power of two, as long as its room, and has a digest left on every requested layer |
| MerkleNodes.BuildNodes | era-boojum-cuda/src/poseidon.rs:265-290 | With either node kernel the recursion fails exactly when one of its assertions does, and otherwise leaves each layer directly behind the one below, nothing else changed |
| InPlaceTree.TreeAssertions | era-boojum-cuda/src/poseidon.rs:322-329 | For a power-of-two leaf count the one outer check on layers_count implies (and is implied by) all of them |
| StoredTree.BuiltIsFlat | era-boojum-cuda/src/poseidon.rs:281-288 | What the recursion leaves behind is the leaves followed by the stored layers, in order |
| StoredTree.LevelSeen | era-boojum-cuda/src/poseidon.rs:281-288 | The digests seen in stored layer d are the nodes of the tree at height d above the leaves that the node kernel sees |
| StoredTree.StoredLevelLies | era-boojum-cuda/src/poseidon.rs:281-288 | Stored layer d is the slice at the offset of layer d |
| StoredTree.FinishedTreeCells | era-boojum-cuda/native/poseidon_utils.cuh:85-134 | After a build every cell of every digest of that tree is where the layout of the node kernel puts it |
| MerklePaths.LayerIsSlice | era-boojum-cuda/src/poseidon.rs:281-288 | Layer d is the slice of length 2^(bits-d) at its offset |
| MerklePaths.LayersAdjacent | era-boojum-cuda/src/poseidon.rs:281-288 | Each layer begins where the one below ends, so the slices are disjoint |
| MerklePaths.LayersFill | era-boojum-cuda/src/poseidon.rs:281-288 | The last layer ends where the tree ends |
| MerklePaths.Sibling | era-boojum-cuda/native/poseidon_common.cu:32 | `index ^ 1` has the same parent and is the other child |
| MerklePaths.PathLeadsToAncestor | era-boojum-cuda/src/poseidon.rs:940-962 | For every leaf and every depth, folding the leaf with the siblings at index^1, (index>>1)^1, ... gives the ancestor stored at that layer |
| MerkleGather.GatherPaths | era-boojum-cuda/native/poseidon_common.cu:22-36 | Every result cell is the cell that the kernel addresses; the launcher fails exactly when one of its assertions does, that is unless the buffer holds 2^k digests, k exceeds the number of layers asked for by at least two, and the results have the right size |
| MerkleGather.GatheredIsOnPath | era-boojum-cuda/src/poseidon.rs:940-962 | On cells that hold a tree column by column, as the tests lay them out, the gathered digests are the path |
| MerkleGather.ColumnsGathered | era-boojum-cuda/native/poseidon2_single_thread.cu:32-36 | After a build whose node kernel stores column by column, the cells gathered above the leaves are those of the sibling, for every index |
| MerkleGather.AddressesAgree | era-boojum-cuda/native/poseidon_common.cu:29-35 | On a layer with adjacent cells the kernel reads the right cell if and only if an equation between column, layer size and sibling holds |
| MerkleGather.SiblingNeverReadWhole | era-boojum-cuda/native/poseidon_common.cu:29-35 | So on such a layer at least one cell of every sibling is read from a wrong place |
| MerkleGather.GatherMissesSibling | era-boojum-cuda/native/poseidon_common.cu:29-35 | For the leaf layer, and for every layer of a build with adjacent cells, there are leaves over which the finished tree (with the identity as permutation) yields a wrong cell, for every index |
| MerkleGather.SiblingsGatheredExactly | era-boojum-cuda/native/poseidon_common.cu:22-36 | For all permutations and leaves the finished tree yields the sibling at layer d if and only if the node kernel stores column by column and d is at least one |
| Scans.ScanInPlace | era-boojum-cuda/src/ops_complex.rs:589-596 | Exclusive scan in place: every element becomes the sum of those before it |
| Scans.Iota | era-boojum-cuda/src/ops_complex.rs:588-596 | The scan of ones numbers the cells |
| Scans.SortPairs | era-boojum-cuda/src/ops_complex.rs:597-607 | Keys ascending, values moved along, equal keys in their old order |
| Runs.Encode | era-boojum-cuda/src/ops_complex.rs:608-616 | Maximal runs with their keys and lengths; lengths beyond the runs stay zero |
| Runs.MarkEnds | era-boojum-cuda/native/ops_complex.cu:235-244 | Exactly the last position of each run is marked |
| Runs.ScanNumbersRuns | era-boojum-cuda/src/ops_complex.rs:627-635 | The scan over the marks gives every position the number of the run it lies in |
| CopyCycles.NextIsBijective | era-boojum-cuda/src/ops_complex.rs:564-646 | The permutation of the cells and its inverse undo each other |
| CopyCycles.NextIsNearest | era-boojum-cuda/native/ops_complex.cu:253-262 | Which cell follows: the next one with the same index, else the first one; a cell itself only for the index 2^31 without a greater one anywhere |
| CopyCycles.CyclesAreClasses | era-boojum-cuda/src/ops_complex.rs:564-646 | The cycle of a cell consists of exactly the cells with the same variable |
| CopyCycles.InvariantIffConstant | era-boojum-cuda/src/ops_complex.rs:564-646 | A cell assignment is invariant under the permutation if and only if it is constant on each variable |
| CopyCycles.PlaceholdersFixed | era-boojum-cuda/native/ops_complex.cu:253-260 | All placeholder cells are fixed if and only if no greater variable index occurs, or at most one cell is a placeholder |
| CopyCycles.PlaceholdersChained | era-boojum-cuda/native/ops_complex.cu:253-260 | One greater index is enough to chain two placeholder cells |
| CopyPermutation.PlaceholderRecognised | era-boojum-cuda/native/ops_complex.cu:253-259 | The test of the kernel on the last run recognises exactly the fixed cells |
| CopyPermutation.TargetIsNext | era-boojum-cuda/native/ops_complex.cu:255-262 | The destination the kernel computes from run, offset and length is the next cell of the permutation |
| CopyPermutation.CellLabel | era-boojum-cuda/native/ops_complex.cu:263-268 | The value stored is the power of the row root for the row, times the scalar of the column |
| CopyPermutation.IdentitiesOfColumn | era-boojum-cuda/src/ops_complex.rs:1937-1951 | The cell that follows the first cell of a column carries the scalar of the column; and what the cell carries that follows a next one is the row root times what the one before carries, modulo P |
| CopyPermutation.Scatter | era-boojum-cuda/native/ops_complex.cu:246-270 | After all threads, for every cell c the cell that follows c holds the identity of c; no two threads store to the same cell |
| CopyPermutation.BuildTables | era-boojum-cuda/src/ops_complex.rs:588-635 | The seven stages leave exactly the tables that the last kernel needs |
| CopyPermutation.GeneratePermutation | era-boojum-cuda/src/ops_complex.rs:564-646 | For every array of variable indexes the result carries the permutation: scalars after the first cells of columns, multiplied by the row root from row to row. It fails exactly when the cells are not whole columns of a power-of-two length |
| SpongeSpec.AbsorbInParts | era-boojum/src/algebraic_props/sponge.rs:224-284 | After a first part of the input only its state and its incomplete block matter |
| SpongeSpec.TailLength | era-boojum/src/algebraic_props/sponge.rs:246-266 | What is buffered is as long as the input modulo the rate |
| SpongeSpec.PaddingIsZeros | era-boojum/src/algebraic_props/sponge.rs:310-318 | In both modes, absorbing the rest and padding is absorbing the block filled up with zeros |
| SpongeSpec.OverwrittenBlock | era-boojum/src/algebraic_props/round_function.rs:46-58 | Up to one block in overwriting mode: the round function of the values, zeros up to the rate, and the rest of the state |
| SpongeSpec.AddedBlock | era-boojum/src/algebraic_props/round_function.rs:30-37 | In addition mode: the round function of the state with the values added to its first elements, modulo P |
| SpongeSpec.BlockByBlock | era-boojum/src/algebraic_props/round_function.rs:160-183 | Longer data is absorbed block by block |
| Sponge.AbsorbInto | era-boojum/src/algebraic_props/round_function.rs:30-58 | The loop over state and values: every value replaces an element, or is added to it modulo P, and the rest stays |
| Sponge.AbsorbVararg | era-boojum/src/algebraic_props/round_function.rs:160-183 | `absorb_into_state_vararg` computes the one-shot function |
| Sponge.AbsorbMultipleRounds | era-boojum/src/algebraic_props/round_function.rs:132-157 | The state after all rounds, and the list of the states after each prefix of whole blocks |
| Sponge.BufferedSponge.constructor | era-boojum/src/algebraic_props/sponge.rs:215-222 | A new sponge has absorbed nothing |
| Sponge.BufferedSponge.AbsorbSingle | era-boojum/src/algebraic_props/sponge.rs:224-239 | The absorbed input grows by the value; state, buffer and `filled` stay those of the whole input, and `filled` stays below the rate |
| Sponge.BufferedSponge.AbsorbMany | era-boojum/src/algebraic_props/sponge.rs:241-284 | The same for any number of values at once |
| Sponge.BufferedSponge.RunRoundFunction | era-boojum/src/algebraic_props/sponge.rs:287-290 | Allowed exactly between whole blocks; counting starts again from the new state |
| Sponge.BufferedSponge.TryGetCommitment | era-boojum/src/algebraic_props/sponge.rs:292-298 | A commitment exactly between whole blocks, and then the one of the one-shot function |
| Sponge.BufferedSponge.Finalize | era-boojum/src/algebraic_props/sponge.rs:300-323 | Any sequence of absorbs ends in the one-shot hash of the concatenated input |
| Sponge.BufferedSponge.FinalizeReset | era-boojum/src/algebraic_props/sponge.rs:325-345 | The same value, and a sponge that has absorbed nothing, in the initial state |
| Sponge.ChunkingDoesNotMatter | era-boojum/src/algebraic_props/sponge.rs:224-284 | Two sponges that absorbed the same input in whatever pieces agree in state, `filled` and live buffer prefix |
| Circuit.CircuitBuilder.constructor | plonky2-sha256/src/circuit.rs:279 | A new circuit has no constraint; every assignment satisfies it |
| Circuit.CircuitBuilder.Emit | plonky2-sha256/src/split_base.rs:29-36 | A constraint on fresh wires: all earlier constraints are kept, and the honest assignment still satisfies them all |
| Circuit.CircuitBuilder.AddInput | plonky2-sha256/src/circuit.rs:289-291 | A message wire: no constraint, a bit by assumption |
| CircuitBits.LittleEndianIsNat | plonky2-sha256/src/split_base.rs:55-62 | The sum of the bits is the number they write with the last one most significant |
| CircuitBits.SplitIsUnique | plonky2-sha256/src/split_base.rs:29-36 | The 32 limbs are determined by the value, since 2^32 is below P |
| CircuitBits.SplitLeBase | plonky2-sha256/src/split_base.rs:29-36 | In every satisfying assignment the limbs are the bits of the value, which has 32 bits; only the honest assignment must have such a value beforehand |
| CircuitBits.SplittableExactly | plonky2-sha256/src/split_base.rs:29-36 | Limbs can be chosen for a value if and only if it is below 2^32 |
| CircuitBits.SumByArithmetic | plonky2-sha256/src/split_base.rs:64-74 | The branch for few bits, by Horner's rule |
| CircuitBits.LeSum | plonky2-sha256/src/split_base.rs:57-95 | Both branches give the sum of bit i times 2^i |
| CircuitBits.AdditionIsUnique | plonky2-sha256/src/circuit.rs:266-273 | A canonical low word and carry are determined by the summands although the constraint holds only modulo P |
| CircuitBits.AddU32 | plonky2-sha256/src/circuit.rs:266-273 | The low word is the sum modulo 2^32 and the other one the carry |
| CircuitBits.AddManyU32 | plonky2-sha512/src/circuit.rs:300-302 | Low word and carry of up to 16 words |
| CircuitWords.WordToBits | plonky2-sha512/src/circuit.rs:58-70 | The bits of a word of one or two limbs, most significant first |
| CircuitWords.BitsToWord | plonky2-sha512/src/circuit.rs:72-87 | Back from bits to limbs, least significant limb first |
| CircuitWords.LimbwiseSum | plonky2-sha512/src/circuit.rs:290-303 | Adding limb by limb with carry is adding modulo 2^64 |
| CircuitWords.AddTwoLimbs | plonky2-sha512/src/circuit.rs:282-308 | The sum modulo 2^64 of two-limb words, again with exactly two limbs |
| Sha2Gadgets.Xor3OnBits | plonky2-sha256/src/circuit.rs:98-124 | The polynomial a(1-2b-2c+4m)+b+c-2m over the field is exclusive or on bits |
| Sha2Gadgets.ChOnBits | plonky2-sha256/src/circuit.rs:212-215 | a(b-c)+c chooses between bits |
| Sha2Gadgets.MajOnBits | plonky2-sha256/src/circuit.rs:235-241 | a(b+c-2m)+m is the majority of bits |
| Sha2Gadgets.Xor3Gate | plonky2-sha256/src/circuit.rs:104-124 | The emitted constraints force the result wire to the polynomial |
| Sha2Gadgets.RotateIndexes | plonky2-sha256/src/circuit.rs:74-83 | Entry i of the index vector is (i - y) modulo the word size |
| Sha2Gadgets.ShiftIndexes | plonky2-sha256/src/circuit.rs:87-96 | Entry i is i - y, or the index of the zero behind the word |
| Sha2Gadgets.SigmaGadget | plonky2-sha256/src/circuit.rs:126-210 | For each of the four sigma functions and both word sizes the result word carries the function of FIPS 180-4 of the argument |
| Sha2Gadgets.ChoiceGadget | plonky2-sha256/src/circuit.rs:216-264 | Likewise for Ch and Maj |
| Sha2Sigmas.SigmasOf256 | plonky2-sha256/src/circuit.rs:126-210 | The four sigma functions of SHA-256, bit by bit: which bits of the argument are added for each bit of the result |
| Sha2Sigmas.SigmasOf512 | plonky2-sha512/src/circuit.rs:142-226 | The same for SHA-512 |
| Sha2Rounds.WindowFill | plonky2-sha256/src/circuit.rs:323-327 | The first 16 rounds fill the window with the words of the block |
| Sha2Rounds.WindowRoll | plonky2-sha256/src/circuit.rs:350-356 | Each later round overwrites the oldest word by the next one of the schedule: before round i, slot j mod 16 holds W[j] for the last 16 j |
| Sha2Rounds.WindowReads | plonky2-sha256/src/circuit.rs:351-356 | The slots i+1, i+14, i+9 and i of the window hold W[i-15], W[i-2], W[i-7] and W[i-16] |
| Sha2Rounds.NextWordOrder | plonky2-sha256/src/circuit.rs:354-356 | The order of the additions in the code gives the word of section 6.2.2 of FIPS 180-4 |
| Sha2Steps.EarlyRound | plonky2-sha256/src/circuit.rs:328-347 | One of the first 16 rounds maps the working variables as FIPS 180-4 says |
| Sha2Steps.LateRound | plonky2-sha256/src/circuit.rs:358-378 | So does a later round, with its different order of additions |
| Sha2Steps.NextScheduleWord | plonky2-sha512/src/circuit.rs:391-397 | The word that round i stores into the window |
| Sha2Block.BlockRounds | plonky2-sha256/src/circuit.rs:323-379 | All rounds over one block give the working variables after all rounds of the standard |
| Sha2Block.BlockCircuit | plonky2-sha256/src/circuit.rs:313-388 | The circuit of one block computes the hash of the block from the hash value before |
| Sha2.ZeroBitsSmallest | plonky2-sha256/src/circuit.rs:284-286 | The zero run of the specification is the smallest one that fills whole blocks |
| Sha2Message.PaddingLengths | plonky2-sha256/src/circuit.rs:284-286 | The code pads with one bit and exactly the smallest zero run |
| Sha2Message.PaddedLengthWhole | plonky2-sha256/src/circuit.rs:284-285 | The padded length is a multiple of the block size |
| Sha2Message.PaddedLengthInRange | plonky2-sha256/src/circuit.rs:284-286 | If the additions stay in the integer type, so does the padded length |
| Sha2Message.AssertionOnPadding | plonky2-sha256/src/circuit.rs:286-287 | `p > 1` fails exactly for lengths of 447 modulo 512 (895 modulo 1024), never for whole bytes |
| Sha2Message.MessageWires | plonky2-sha256/src/circuit.rs:282-299 | The message wires carry the padded message of FIPS 180-4, section 5.1; failure exactly as characterised |
| Sha2Message.ArrayToBits | plonky2-sha256/src/circuit.rs:40-50 | The bits of a byte string, most significant first |
| Sha2Message.WholeBytesArePadded | plonky2-sha256/src/circuit.rs:286-287 | A byte string never triggers the assertion on p |
| Sha2Circuit.DigestWires | plonky2-sha256/src/circuit.rs:391-396 | The digest wires carry the bits of the final hash value in order |
| Sha2Circuit.MakeCircuits | plonky2-sha512/src/circuit.rs:313-442 | For every length: every satisfying assignment with bits on the message wires has their digest on the digest wires, every message has a satisfying assignment, and it fails exactly for the characterised lengths |
| Sha2Circuit.ConstraintsDetermineDigest | plonky2-sha256/src/circuit.rs:391-398 | Two satisfying assignments that agree on the message agree on every digest wire |
| Sha2Variants.VariantsValid | plonky2-sha512/src/circuit.rs:287-288 | With these tables every constant has exactly as many limbs as a word, so the assertions on limbs never fail |
| Sha2Variants.MakeSha256 | plonky2-sha256/src/circuit.rs:278-399 | The circuit of SHA-256 (section 6.2 of FIPS 180-4), for every message length below the overflow except 447 modulo 512 |
| Sha2Variants.MakeSha512 | plonky2-sha512/src/circuit.rs:313-442 | The circuit of SHA-512 (section 6.4 of FIPS 180-4), for every message length below the overflow except 895 modulo 1024 |
| Sha2Abc256.DigestOfAbc | plonky2-sha256/src/circuit.rs:278-399 | The specification gives the digest of "abc" known from the published examples of SHA-256, proved round by round |
| Sha2Abc256.AbcOnWires | plonky2-sha256/src/circuit.rs:391-398 | So wherever the circuit is satisfied with "abc" on the message wires, every digest wire carries its bit of that digest |
| Sha2Abc512.DigestOfAbc | plonky2-sha512/src/circuit.rs:313-442 | The same for SHA-512 |
| Sha2Abc512.AbcOnWires | plonky2-sha512/src/circuit.rs:432-441 | The same for the wires of the SHA-512 circuit |
| Sha2Tables.K512FromCubeRoots | plonky2-sha512/src/circuit.rs:18-38 | The 80 round constants are the first 64 fractional bits of the cube roots of the 80 listed numbers |
| FirstPrimes.FirstEightyPrimes | plonky2-sha512/src/circuit.rs:18-38 | The listed numbers are the first 80 primes: ascending, and up to the last one exactly they are prime |
| Sha2Tables.K256FromK512 | plonky2-sha256/src/circuit.rs:16-33 | The 64 round constants of SHA-256 are the upper halves of the first 64 of them |
| Sha2Tables.InitialHashFromSquareRoots | plonky2-sha512/src/circuit.rs:11-16 | The initial hash values come from the square roots of the first eight primes, 32 or 64 bits of them |
| Mds.BlockMul | era-boojum/src/implementations/suggested_mds.rs:21-55 | The additions and doublings multiply a block by M_4 |
| Mds.SuggestedMdsMul | era-boojum/src/implementations/suggested_mds.rs:59-97 | The program multiplies the state by the block-circulant of (2 M_4, M_4, M_4), in place |
| Mds.InverseUndoesTimes | era-boojum/src/implementations/suggested_mds.rs:8-14 | An explicit inverse program undoes the multiplication for every state |
| Mds.TimesUndoesInverse | era-boojum/src/implementations/suggested_mds.rs:8-14 | And the multiplication undoes the inverse program: the matrix is a bijection |
| SpecializedColumns.ExactlyOneOwner | era-boojum/src/cs/cs_builder_verifier.rs:176-182 | Every allocated column lies in exactly one copy of one slot: the ranges are disjoint without gaps |
| SpecializedColumns.ColumnAllocator.constructor | era-boojum/src/cs/cs_builder_verifier.rs:197-203 | Nothing is allocated at first |
| SpecializedColumns.ColumnAllocator.TotalWidth | era-boojum/src/cs/cs_builder_verifier.rs:173-182 | The loop over the repetitions; zero repetitions reserve the columns of one |
| SpecializedColumns.ColumnAllocator.AllowGate | era-boojum/src/cs/cs_builder_verifier.rs:151-244 | It fails exactly where the code panics: when constants are shared, but the placement is not chunked or does not advance by whole copies. Otherwise it records a gate whose ranges start where those of all gates before it end |
| SpecializedColumns.RepetitionsDisjoint | era-boojum/src/cs/cs_builder_verifier.rs:197-239 | After any sequence of calls, two repetitions that exist, of one gate or of two, are never placed on the same variable, witness or constant column, except that the repetitions of a gate may share its constants; nothing outside the allocated range is used |
| SpecializedColumns.RepetitionsFill | era-boojum/src/cs/cs_builder_verifier.rs:173-243 | The repetitions that exist, where the allocator places them, fill the range above the general-purpose columns, for each kind, if and only if no gate with zero repetitions has columns of that kind |
| SpecializedColumns.ReservedInVain | era-boojum/src/cs/implementations/verifier.rs:1616-1636 | For instance, the three variable columns reserved for a gate with zero repetitions are placed in no repetition |
| SpecializedColumns.VariablesPartitioned | era-boojum/src/cs/cs_builder_verifier.rs:197-203 | Every variable column above the general-purpose ones is reserved for exactly one copy of one gate |
| SpecializedColumns.WitnessesPartitioned | era-boojum/src/cs/cs_builder_verifier.rs:197-203 | The same for witness columns |
| SpecializedColumns.ConstantsPartitioned | era-boojum/src/cs/cs_builder_verifier.rs:184-233 | Constant columns are reserved for one gate each, and for one copy each unless they are shared |
| MatVec.ToField | proto-neural-zkp/src/lib.rs:112-118 | The residue of the signed integer, for every 32-bit integer |
| MatVec.Dot | proto-neural-zkp/src/lib.rs:121-141 | In every satisfying assignment the output is the inner product modulo P; it fails exactly when the lengths differ |
| MatVec.Full | proto-neural-zkp/src/lib.rs:144-166 | The product with a matrix of any shape; it fails exactly without inputs or with an incomplete last row |
| MatVec.RowAt | proto-neural-zkp/src/lib.rs:144-166 | Row r of the matrix begins at element r times the number of inputs |
| MatVec.ResultRecovered | proto-neural-zkp/src/lib.rs:112-166 | When n * bound * 2^31 is at most (P-1)/2 the signed integer product is read back from the output wire |

## Left out

- Columns.BatchForward: the launches of one stage each, which the code uses below 2^16 and above 2^24 elements; the kernels that do several stages per launch and the `PLANS` table are taken to compute the same transform.
- Columns.BatchInverse: as above.
- Roots.TwiddleIsZeta: the tables of powers and twiddles are the powers they stand for; how era-boojum-cuda/src/context.rs splits them into coarse and fine parts and copies them to the device is not modelled.
- CircuitBits.SplitLeBase: the honest assignment has a 32-bit value on the wire, as for every caller in the two circuits; for other values the constraint cannot be satisfied (`CircuitBits.SplittableExactly`), and generating a proof would fail.
- CircuitBits.AddU32: the meaning of the 32-bit addition gates (range checks on both words, canonical low and high word) is taken as their contract, and likewise that a limb x with x(x-1) = 0 is 0 or 1, since primality of P is not proved.
- CircuitBits.AddManyU32: as above, for up to 16 summands and a carry below 16.
- Circuit.CircuitBuilder.Emit: the builder of the proof system reuses wires for equal constants and equal operations and connects wires by copy constraints; the model always takes fresh wires and identifies connected ones.
- SegmentedBuild.BuildLeavesSegmented: offsets and lengths are unbounded here; the 32-bit arithmetic of `inputs_offset + (i * num_ntt_per_round << log_n)` is not modelled.
- SegmentedKernel.LaunchLeaves: loading or storing states for more than 64 leaves that are no multiple of 64 is excluded; the three parts of a state would be further apart than the buffer has room for. Threads run one after the other. They store to disjoint cells, which is what the proof uses, so the order does not matter; races, streams and launch geometry are left out.
- Scans.SortPairs: a sort by insertion and the plain loops of `Runs.Encode` stand in for the device-wide primitives, whose source is a library; the contracts are what the pipeline relies on.
- MatVec.ToField: negation wraps around; with overflow checks switched on, the code panics for the least 32-bit integer instead.
- Sponge.BufferedSponge.AbsorbMany: the element type is the field itself; contexts and in-circuit values, for which the code is generic, are left out.
- InPlaceTree.BuildInPlace: `layers_count` is at least one, as `build_merkle_tree` asserts (era-boojum-cuda/src/poseidon.rs:322), since the subtraction of one underflows otherwise; the 32-bit product `num_ntts << log_n` (merkle_tree_segmented.rs:336) is not truncated, so the model is right below 2^32 elements; without any column the code launches a grid of no blocks, which the device refuses, while the model goes on; and with `rate_bits` zero the code shifts by the full width of 64 (merkle_tree_segmented.rs:337), which panics with overflow checks switched on, while the model, like the code without them, goes on.
- PartialTree.BuildPartial: likewise `layers_count` is at least one and the 32-bit product `num_ldes << log_n` (merkle_tree_segmented.rs:403) is not truncated, and the shift by 64 for `rate_bits` zero (line 438) does not panic.
- MerkleGather.GatherPaths: indexes at or above the number of leaves, which the launcher does not refuse, are excluded; the kernel would read cells of other layers, or beyond the buffer.
- SpecializedColumns.RepetitionsFill: use means placement of the columns. In evaluation, era-boojum/src/cs/implementations/verifier.rs:1616-1636 hands a gate with shared constants an empty range of constant columns, since its final offset does not advance; that is not modelled.
- A buffer of digests is a buffer of groups of four cells; single cells are modelled where a layout matters, in the node and gathering kernels.
- SHA-256 and SHA-512 share one model, with the tables, shift amounts, word and length sizes of each.
- The general-purpose branch of `allow_gate` compares evaluators and batches gates, without any allocation.
- `AlgebraicSponge` resets its count before using it, so it only agrees with the generic sponge when nothing is buffered; `specialize_for_len` does nothing in the modelled hashes.
- Cooperative kernels, `gather_rows`, `build_merkle_tree_w_len`, the first-round extension into other layouts, and the Poseidon permutations themselves.
- Benchmarks, command lines, timing, memory reports, JSON models, the Python network, build scripts, and the prover with its soundness.
