# Verified model of the three-party iris statistics engine

A Dafny model of the multi-party computation engine that compares secret-shared iris data and counts
the results, of the Shamir layer that feeds it, and of the recovery and startup coordination of the
servers that run it. Everything is stated over the joint state of the parties and proved for all
shares, all randomness, all batch lengths and all session ids.

**Shares.** A replicated secret has three components; party i holds components i and i-1
(`Rep3.Shared`, `View`). Additive secrets live modulo 2^k for k = 16, 32, 48, 64; bits are XOR-shared.
What a protocol means is said with `Open`, `OpenBit` and `OpenXor` of the joint state.

**Sessions.** `Sessions.Network` holds the FIFO channels between neighbours, the draws each party has
made from its two generators, and a ghost log. What a generator returns depends on the key and on all
draws made before, so two holders agree only as long as they drew the same things in the same order.
A permutation drawn is the Fisher-Yates permutation of the generator's choices. `Quiet()` says that channels
are empty, generators are in step, every party has done exactly what the calls so far prescribe, and the
recorded steps are a legal run of the channels. Protocol methods run the parties in one convenient order;
`Schedules` proves that every other interleaving of sends and receives ends in the same state, and `Outcomes`
that this is the state the methods reached, with the same messages and the same opened values. Packed 64-bit
planes are modelled as flat sequences of lanes, 64 per word, and a draw of packed words as one coin per lane.

**Files.** Words, Rep3, Network and Results are the vocabulary. Gates, Adders, MsbAdders, Transpose,
Split, Inject, Conversions, Lifts, Threshold and AnonThreshold are the binary circuits. Ops, Products,
Opening, Swaps and PlainSwaps are the arithmetic rounds; Distances, Reduction, Normalised, Counting and
GroupCounts compare and count distances; OuterCounts and Histogram build two-dimensional statistics. Galois, Units,
Interpolation, Shamir and Iris are the Galois ring and the sharing of iris vectors. Prf and Shuffle are
randomness and the oblivious shuffle, Draws ties what a session draws to what the generators put out. Interleaving, CallRuns, Schedules and Outcomes are
about asynchronous runs. Recovery, Reconciliation and RecoveryOutcome are the crash recovery of modification
records, Barrier, BarrierRuns and BarrierHold the startup visibility barrier.

**Findings.**
- Plain-id swaps compute `id1 - id2` and `id1 + id2` with 32-bit wrap-around before embedding them in the
  ring. In a 32-bit ring both ids are always right (`PlainSwaps.PlainIdsNarrow`); in a wider one, for both values
  of the bit, exactly if `id1 >= id2` and `id1 + id2 < 2^32` (`PlainSwaps.PlainIdsWide`).
  `PlainSwaps.PlainIdCounterexample` gives a failing input, `PlainSwaps.PlainSwapWide` the same for a whole list.
- Conditional swaps are computed from a snapshot of the list. For a list without repeated entries they equal
  swapping one pair after the other, whatever the bits, exactly if no pair of different indices shares an index
  with a later pair (`Swaps.SnapshotIsEach`); and they lose and duplicate no entry, whatever the bits, exactly if
  later pairs write both or neither of the indices of every such pair (`Swaps.SwapKeepsEntries`).
  `Swaps.OverlapDiffers` turns [10, 20, 30] into [20, 30, 20].
- A second recovery does not always succeed: a node that had completed nothing gains an old frontier, and
  the lookback check then refuses (`RecoveryOutcome.SecondRecoveryRefused`), also when only that node had applied
  its plan before a crash. `RecoveryOutcome.RerunLookback` says exactly when a re-run passes, whoever has applied
  its plan, from the snapshots before the first recovery; `RecoveryOutcome.SecondLookback` is the case of everybody.
- The sign bit of the fixed threshold equals the comparison `4 * code < mask` exactly as long as the
  expression does not fall below -2^17 (`AnonThreshold.SignBitMeaning`); `AnonThreshold.SignBitWrapsAt16` fails it
  at code 0x8000 and mask 1. For any other threshold `AnonThreshold.DiffSignMeaning` gives the exact range of the
  generic path.
- The shared and the plaintext normalised threshold tests are complementary exactly where the polynomial is not
  zero (`Normalised.TestsComplementary`). At Hamming distance 1, mask 2 and t = 774154 it is zero and both say no
  (`Normalised.BothTestsSayNo`).
- The shuffle is described as applying pi01, then pi20, then pi12 to the data; as indices the code composes
  them the other way round, `out[i] = in[pi01[pi20[pi12[i]]]]`, which is what is proved.

## Model

| member | source | states |
|---|---|---|
| `Rep3.OpenAddConst` | ampc-secret-sharing/src/shares/share.rs:40-47 | adding a public constant by role adds it exactly once to the secret |
| `Rep3.NotBit` | ampc-secret-sharing/src/shares/share.rs:319-328 | flipping both components at every party negates the bit |
| `Gates.BlindedOpens` | ampc-actor-utils/src/protocol/binary.rs:143-219 | for all generator outputs the three blinded local ANDs open to the conjunction |
| `Gates.AndMany` | ampc-actor-utils/src/protocol/binary.rs:223-236 | one round; fails exactly on unequal lengths; the parties' outputs fit together and open to lane-wise AND |
| `Gates.AndGrouped` | ampc-actor-utils/src/protocol/binary.rs:240-272 | independent groups share one round and come back in order, each the AND of its operands |
| `Gates.PackedAnd` | ampc-actor-utils/src/protocol/binary.rs:317-353 | all planes of a layer in one round, plane by plane the AND |
| `Gates.AndProduct` | ampc-actor-utils/src/protocol/binary.rs:278-313 | halving rounds over packed words, padding lanes cut off again, leave in every lane the conjunction of all columns; fails exactly on empty or ragged input |
| `Gates.OpenBin` | ampc-actor-utils/src/protocol/binary.rs:1787-1820 | all three parties learn the XOR of the components |
| `Adders.CompressValue` | ampc-actor-utils/src/protocol/binary.rs:359-438 | full-adder compression keeps x + y + z = s + 2c |
| `Adders.BinaryAdd3GetTwoCarries` | ampc-actor-utils/src/protocol/binary.rs:359-438 | per lane x1 + x2 + x3 = (sum mod 2^n) + b1 * 2^n + b2 * 2^(n+1), in n + 1 rounds; fails exactly on unequal or too few planes |
| `MsbAdders.AddMsbRipple` | ampc-actor-utils/src/protocol/binary.rs:1334-1375 | the ripple variant opens to the top bit of the sum in every lane |
| `MsbAdders.ReducedKeepsCarry` | ampc-actor-utils/src/protocol/binary.rs:1408-1482 | one prefix layer keeps the composed carry, for even and odd numbers of planes |
| `MsbAdders.PrefixCarry` | ampc-actor-utils/src/protocol/binary.rs:1415-1487 | the loop keeps one generate plane more than propagate planes, terminates, and ends with the carry into the top bit |
| `MsbAdders.AddMsbPrefix` | ampc-actor-utils/src/protocol/binary.rs:1381-1487 | the prefix variant opens to the same top bit for every width from two on |
| `MsbAdders.LayersIsLog` | ampc-actor-utils/src/protocol/binary.rs:1415-1482 | the number of layers is the rounded-up logarithm of the number of planes |
| `Transpose.SwapPair` | ampc-secret-sharing/src/shares/vecshare_bittranspose.rs:366-385 | the masked XOR swap exchanges exactly the off-diagonal lanes of two rows |
| `Transpose.NextRow` | ampc-secret-sharing/src/shares/vecshare_bittranspose.rs:366-385 | the row step (k + j + 1) and-not j visits the next row whose index bit is clear |
| `Transpose.MaskHalves` | ampc-secret-sharing/src/shares/vecshare_bittranspose.rs:366-385 | m xor (m shl j) is the mask of the next finer layer |
| `Transpose.SwapLayer` | ampc-secret-sharing/src/shares/vecshare_bittranspose.rs:366-385 | one in-place layer swaps all row pairs at distance 2^f and nothing else |
| `Transpose.LayerExchanges` | ampc-secret-sharing/src/shares/vecshare_bittranspose.rs:366-385 | a layer exchanges one more index bit between row and lane |
| `Transpose.TransposeRows` | ampc-secret-sharing/src/shares/vecshare_bittranspose.rs:107-136 | after all layers every block of 2^e rows by 2^e lanes is transposed |
| `Transpose.TransposeBlock` | ampc-actor-utils/src/protocol/binary.rs:1577-1623 | a block of 64 (or any multiple of n) inputs: bit b of input c is lane c of row b |
| `Transpose.TransposePack` | ampc-secret-sharing/src/shares/vecshare_bittranspose.rs:140-157 | for any input length lane l of plane b is bit b of input l, zero in the padding |
| `Splitting.TwoWaySplit` | ampc-actor-utils/src/protocol/binary.rs:1243-1325 | for every length, session id and mask the two XOR sharings add up to the secret modulo 2^k |
| `Sessions.PiecesEven` | ampc-actor-utils/src/protocol/binary.rs:1250-1257 | 3k + m entries are cut into pieces of k, k + floor(m/2) and k + ceil(m/2) |
| `Conversions.BitSlice` | ampc-secret-sharing/src/shares/vecshare_bittranspose.rs:431-450 | slicing both components of every party gives planes of a consistent sharing |
| `Conversions.ExtractMsbBatch` | ampc-actor-utils/src/protocol/binary.rs:1490-1548 | one shared bit per secret, opening to its top bit, for every batch length |
| `Conversions.ExtractMsbBatchRipple` | ampc-actor-utils/src/protocol/binary.rs:1334-1375 | the same bits through the ripple adder |
| `Injection.InjectOpens` | ampc-actor-utils/src/protocol/binary.rs:779-1034 | for all masks the three outputs add up to the XOR of the input components as 0 or 1 |
| `Injection.BitInject` | ampc-actor-utils/src/protocol/binary.rs:733-1034 | every bit becomes a consistent additive sharing of 0 or 1, whichever party plays which role |
| `Lifts.ComponentLane` | ampc-actor-utils/src/protocol/binary.rs:91-116 | the local split of a word yields sharings whose lanes spell its three components |
| `Lifts.ShiftOpens` | ampc-actor-utils/src/protocol/binary.rs:1042-1071 | shifting small-ring components into the larger ring shifts the secret although wraps are lost |
| `Lifts.Lift` | ampc-actor-utils/src/protocol/binary.rs:1076-1135 | the 32-bit result opens to the unsigned 16-bit secret |
| `Lifts.LiftToRing48` | ampc-actor-utils/src/protocol/binary.rs:1140-1202 | the 48-bit result opens to the unsigned 16-bit secret |
| `Lifts.BatchSignedLift` | ampc-actor-utils/src/protocol/ops.rs:608-624 | the result opens to the two's-complement extension modulo 2^32 |
| `Lifts.BatchSignedLiftRing48` | ampc-actor-utils/src/protocol/ops.rs:639-658 | the result opens to the two's-complement extension modulo 2^48 |
| `Threshold.PreparationsAgree` | ampc-actor-utils/src/protocol/binary.rs:614-677 | clearing components of packed words gives the same shares as splitting and XORing them |
| `Threshold.FromParts` | ampc-actor-utils/src/protocol/binary.rs:497-607 | seventeen rounds compute majorities, both ripple carries and the final bit |
| `AnonThreshold.ReducedTotal` | ampc-actor-utils/src/protocol/binary.rs:1715-1727 | the reduced components of 4 * code - mask add up to it modulo 2^18 |
| `AnonThreshold.QuotientCompletes` | ampc-actor-utils/src/protocol/binary.rs:1715-1727 | that sum plus the mask's quotient at bits 16 and 17 is 4 * code - mask for the secrets modulo 2^18 |
| `AnonThreshold.ExtractAnonStatsMsbBatch` | ampc-actor-utils/src/protocol/binary.rs:1729-1779 | every lane opens to bit 17 of (4 * code - mask) mod 2^18; seventeen rounds; fails exactly on unequal batches |
| `AnonThreshold.PackAnonStatsComponents` | ampc-actor-utils/src/protocol/binary.rs:1628-1695 | masks and 18-bit expressions sliced from interleaved components; fails exactly on odd length |
| `AnonThreshold.ExtractAnonStatsMsbBatchFromComponents` | ampc-actor-utils/src/protocol/binary.rs:1699-1713 | the packed path opens to the same bits |
| `AnonThreshold.GreaterThanAnonStatsFromGalois` | ampc-actor-utils/src/protocol/fhd_ops.rs:153-164 | the bits belong to the sums of the three parties' interleaved contributions |
| `AnonThreshold.Select` | ampc-actor-utils/src/protocol/fhd_ops.rs:46-63 | the selected shares in the order asked for, duplicates included; fails exactly on an index out of bounds |
| `AnonThreshold.GreaterThanThresholdPreLiftedMasks` | ampc-actor-utils/src/protocol/fhd_ops.rs:125-142 | opens to the sign of code * 2^16 - mask * a modulo 2^32, with the code shifted locally |
| `AnonThreshold.PathsAgree` | ampc-actor-utils/src/protocol/binary.rs:1715-1727 | at a = 2^14 the generic lift, multiply, subtract and extract path opens to the bits of the fused circuit |
| `AnonThreshold.SignBitMeaning` | ampc-actor-utils/src/protocol/binary.rs:1715-1727 | the bit says 4 * code < mask for the signed code if and only if the expression is at least -2^17 |
| `AnonThreshold.SignBitWraps` | ampc-actor-utils/src/protocol/binary.rs:1715-1727 | at the most negative code and mask 1 the comparison holds and the bit is clear |
| `AnonThreshold.DiffSignMeaning` | ampc-actor-utils/src/protocol/fhd_ops.rs:125-142 | for every threshold a / 2^n up to one the generic bit says code * 2^n < mask * a for the signed code if and only if the difference is at least -2^(2n-1) or below -2^(2n) |
| `Ops.Reshare` | ampc-actor-utils/src/protocol/ops.rs:40-70 | the outputs are a consistent sharing of the sums of the local values, for all generator outputs |
| `Ops.GaloisRingToRep3` | ampc-actor-utils/src/protocol/ops.rs:121-153 | additive contributions become a replicated sharing of their sum |
| `Ops.LocalProductsSum` | ampc-secret-sharing/src/shares/share.rs:184-190 | the three local products add up to the product of the secrets |
| `Ops.ReshareMux` | ampc-actor-utils/src/protocol/ops.rs:286-316 | opens to control * (left - right) + right for any number of fields |
| `Ops.ConditionallySelectDistance` | ampc-actor-utils/src/protocol/ops.rs:322-350 | a control bit of one selects the first distance, zero the second; fails exactly on unequal lengths |
| `Opening.OpenRing` | ampc-actor-utils/src/protocol/ops.rs:215-242 | all three parties learn the sum of the components |
| `Opening.OpenBroadcast` | ampc-actor-utils/src/protocol/ops.rs:247-277 | all three parties learn the sum of three non-replicated shares |
| `Opening.ZeroShares` | ampc-actor-utils/src/protocol/prf.rs:133-139 | the parties' values add up to zero |
| `Swaps.ConditionallySwapDistances` | ampc-actor-utils/src/protocol/ops.rs:542-603 | the opened list is the input list with the pairs of zero bits swapped, computed from the original; both failures exactly |
| `Swaps.SnapshotIsEach` | ampc-actor-utils/src/protocol/ops.rs:538-600 | for all bits the snapshot swaps equal swapping one pair after the other if and only if no pair of different indices shares an index with a later pair |
| `Swaps.SeparateIsBalanced` | ampc-actor-utils/src/protocol/ops.rs:538-540 | pairwise disjoint pairs, as the source asks for, meet both conditions |
| `Swaps.SwapKeepsEntries` | ampc-actor-utils/src/protocol/ops.rs:583-600 | for all bits the code loses and duplicates no entry if and only if later pairs overwrite both ends of every pair of different indices or neither |
| `PlainSwaps.FirstIdOpens` | ampc-actor-utils/src/protocol/ops.rs:516-521 | what the shared first id opens to, with the 32-bit wrap |
| `PlainSwaps.SecondIdOpens` | ampc-actor-utils/src/protocol/ops.rs:522-524 | what the shared second id opens to |
| `PlainSwaps.PlainIdsNarrow` | ampc-actor-utils/src/protocol/ops.rs:516-524 | in a ring of the ids' width both shared ids open to the right ones for every sharing of either bit |
| `PlainSwaps.PlainIdsWide` | ampc-actor-utils/src/protocol/ops.rs:516-524 | in a wider ring they do, for every sharing of either bit, if and only if the first id is not smaller and the sum does not wrap |
| `PlainSwaps.PlainSwapNarrow` | ampc-actor-utils/src/protocol/ops.rs:450-527 | in a ring of the ids' width the ids of the whole list follow their distances |
| `PlainSwaps.PlainSwapWide` | ampc-actor-utils/src/protocol/ops.rs:450-527 | in a wider ring, on disjoint pairs, they do for all bits if and only if the ids of every pair fit |
| `PlainSwaps.ConditionallySwapDistancesPlainIds` | ampc-actor-utils/src/protocol/ops.rs:450-527 | the opened list: distances of zero bits swapped, ids as the wrapping expressions give them; both failures exactly |
| `Distances.CrossMul` | ampc-actor-utils/src/protocol/fhd_ops.rs:185-194 | opens to code2 * mask1 - code1 * mask2 |
| `Distances.NhdCrossMul` | ampc-actor-utils/src/protocol/nhd_ops.rs:39-75 | two rounds open to nmr1 * mask2 - nmr2 * mask1 |
| `Distances.DifferenceInRange` | ampc-actor-utils/src/protocol/nhd_ops.rs:30-75 | within the stated magnitudes neither comparison can wrap its ring |
| `Distances.ObliviousCrossCompare` | ampc-actor-utils/src/protocol/fhd_ops.rs:203-209 | for bounded distances the bit says that the first one is the closer |
| `Distances.CrossCompare` | ampc-actor-utils/src/protocol/nhd_ops.rs:79-96 | the same, opened to all parties |
| `Distances.MinOfPairBatch` | ampc-actor-utils/src/protocol/fhd_ops.rs:252-260 | selects the closer distance of every pair, the second one on a tie |
| `Normalised.FhdLessMeaning` | ampc-actor-utils/src/protocol/fhd_ops.rs:196-209 | the comparison orders by the real fraction code / mask |
| `Normalised.NhdLessMeaning` | ampc-actor-utils/src/protocol/nhd_ops.rs:23-28 | the comparison orders by the real normalised distance |
| `Normalised.NhdGreaterThanThreshold` | ampc-actor-utils/src/protocol/nhd_ops.rs:142-169 | for bounded distances the bit is the sign of the threshold polynomial |
| `Normalised.ThresholdMeaning` | ampc-actor-utils/src/protocol/nhd_ops.rs:134-140 | the polynomial is negative if and only if the normalised distance exceeds the threshold |
| `Normalised.TestsComplementary` | ampc-actor-utils/src/protocol/nhd_ops.rs:171-181 | shared and plaintext tests are complementary if and only if the polynomial is not zero |
| `Normalised.BothTestsSayNo` | ampc-actor-utils/src/protocol/nhd_ops.rs:142-181 | a bounded distance and threshold where the polynomial is zero and both tests say no |
| `Reduction.NotCloserTransitive` | ampc-actor-utils/src/protocol/anon_stats.rs:106-147 | closeness is a total preorder on bounded distances |
| `Reduction.ReduceStep` | ampc-actor-utils/src/protocol/anon_stats.rs:126-143 | one round keeps the minimum of the entries seen; an exhausted group's dummy comparison changes nothing |
| `Reduction.ReduceToMinDistanceBatch` | ampc-actor-utils/src/protocol/anon_stats.rs:106-190 | every ragged group ends with one of its own closest entries, for both metrics; fails exactly on an empty group |
| `Counting.CompareThresholdBuckets` | ampc-actor-utils/src/protocol/anon_stats.rs:15-81 | bucket t opens to the number of bits set for threshold t, each bit saying mask * a < code * 2^16 |
| `Counting.BucketOpensToCount` | ampc-actor-utils/src/protocol/anon_stats.rs:62-81 | within bounds a bucket opens to the exact number of distances below its threshold |
| `Counting.NhdCompareThresholdBuckets` | ampc-actor-utils/src/protocol/anon_stats.rs:43-103 | bucket t opens to the number of bits set for threshold t, each bit saying that the distance is not above it |
| `Counting.NhdBucketOpensToCount` | ampc-actor-utils/src/protocol/anon_stats.rs:43-103 | for bounded distances a bucket opens to the exact number of real normalised distances within its threshold |
| `GroupCounts.CompareMinThresholdBuckets` | ampc-actor-utils/src/protocol/anon_stats.rs:198-208 | every group counts once, by one of its closest entries |
| `GroupCounts.NhdCompareMinThresholdBuckets` | ampc-actor-utils/src/protocol/anon_stats.rs:210-225 | the same for normalised distances |
| `GroupCounts.MinimumDecides` | ampc-actor-utils/src/protocol/anon_stats.rs:192-208 | the closest entry of a group is within a threshold if and only if some entry is, for both metrics |
| `GroupCounts.GroupBucketOpens` | ampc-actor-utils/src/protocol/anon_stats.rs:198-208 | a bucket opens to the exact number of groups with an entry below its threshold |
| `GroupCounts.NhdGroupBucketOpens` | ampc-actor-utils/src/protocol/anon_stats.rs:210-225 | the same for normalised distances |
| `OuterCounts.CompareAgainstThresholdsDi` | ampc-anon-stats/src/anon_stats/iris_2d.rs:360-376 | one injected bit per threshold and score, one exactly if the score is below, when the difference does not wrap |
| `OuterCounts.LocalDotsSum` | ampc-anon-stats/src/anon_stats/iris_2d.rs:412-427 | the parties' sums of local products add up to the sum of products of the opened bits |
| `OuterCounts.CumulativeCounts` | ampc-anon-stats/src/anon_stats/iris_2d.rs:378-429 | all parties learn for every pair of thresholds how many score pairs lie below both |
| `OuterCounts.ProcessJob` | ampc-anon-stats/src/anon_stats/iris_2d.rs:378-447 | from shared scores to the exact two-dimensional histogram of the pairs they hold, beginning at the least 16-bit score, for sorted thresholds no score difference wraps against |
| `OuterCounts.LeastScore` | ampc-anon-stats/src/anon_stats/buckets.rs:438-442 | the edge the histogram begins at is the one score that some 16-bit sharing holds and none falls below |
| `Histogram.BucketStatistics2D.FillBucketsDi` | ampc-anon-stats/src/anon_stats/buckets.rs:403-493 | from the cumulative counts of any list of 16-bit score pairs the buckets become its histogram: the non-empty cells row by row with their exact counts and ranges, and the total |
| `Histogram.CellExact` | ampc-anon-stats/src/anon_stats/buckets.rs:446-478 | inclusion-exclusion on cumulative counts gives the exact number of pairs in the cell, so nothing is clamped |
| `Histogram.EmittedExact` | ampc-anon-stats/src/anon_stats/buckets.rs:438-487 | a cell is emitted with its exact count or left out because it is empty; its ranges end at thresholds[k] and begin at the threshold before, the first at -32768 |
| `Histogram.RowsTotal` | ampc-anon-stats/src/anon_stats/buckets.rs:403-493 | the emitted counts add up to the last cumulative entry |
| `Histogram.RowsAreHistogram` | ampc-anon-stats/src/anon_stats/buckets.rs:403-493 | from cumulative counts of any list of pairs the emitted buckets are its non-empty cells, counted directly, and their total is the number of pairs below the last threshold |
| `Histogram.PaddedRows` | ampc-anon-stats/src/anon_stats/buckets.rs:446-467 | too short a list of counts gives the same buckets as the list filled up with zeros |
| `Galois.TimesAssociates` | ampc-secret-sharing/src/galois.rs:229-266 | the written-out product is associative |
| `Galois.Distribute` | ampc-secret-sharing/src/galois.rs:181-266 | wrapping addition and multiplication distribute |
| `Units.Pow` | ampc-secret-sharing/src/galois.rs:110-125 | square and multiply computes the power for every exponent |
| `Units.UnitOrderModTwo` | ampc-secret-sharing/src/galois.rs:99-106 | every element with an odd coefficient has fifteenth power one modulo two, since x generates the field |
| `Units.UnitPower` | ampc-secret-sharing/src/galois.rs:99-106 | each squaring lifts 1 + 2^k z to 1 + 2^(k+1) z' |
| `Units.InverseCorrect` | ampc-secret-sharing/src/galois.rs:89-107 | for every element with an odd coefficient the power is a two-sided inverse |
| `Units.Invert` | ampc-secret-sharing/src/galois.rs:89-107 | succeeds if and only if an inverse exists, and returns it |
| `Interpolation.Moments` | ampc-secret-sharing/src/galois.rs:518-546 | over any commutative ring, at points with unit differences, the weights send z^0 to one and z^d to zero for 0 < d < n |
| `Interpolation.LagrangeWeights` | ampc-secret-sharing/src/galois.rs:528-546 | the nested loops compute these weights |
| `Interpolation.ProductReconstructs` | ampc-secret-sharing/src/galois.rs:548-568 | products of two polynomials' values combine to the product of the constants if the degrees add up to less than the number of points |
| `Shamir.PointsDiffer` | ampc-secret-sharing/src/galois.rs:37-54 | any two points of the exceptional sequence differ by a unit |
| `Shamir.WeightsInterpolate` | ampc-secret-sharing/src/galois.rs:518-546 | for every n from 1 to 15 the weights at zero interpolate |
| `Shamir.Encode3` | ampc-secret-sharing/src/galois.rs:346-361 | three shares with ids 1 to 3, the values of the line through the secret |
| `Shamir.Encode5` | ampc-secret-sharing/src/galois.rs:363-381 | five shares with ids 1 to 5, the values of the parabola through the secret |
| `Shamir.Encode3MatIsLines` | ampc-secret-sharing/src/galois.rs:429-471 | the addition-only encoder deals the shares of the degree-one polynomial |
| `Shamir.Encode5MatIsParabolas` | ampc-secret-sharing/src/galois.rs:383-427 | the circuit of multiplications by x deals the shares of Horner's rule |
| `Shamir.Reconstruct` | ampc-secret-sharing/src/galois.rs:548-568 | the shares weighted by the Lagrange coefficients at zero of their ids, for any number of shares up to 15 |
| `Shamir.ProductOfThree` | ampc-secret-sharing/src/galois.rs:548-557 | reconstructing pointwise products of two three-party sharings gives the product of the secrets |
| `Shamir.ProductOfFive` | ampc-secret-sharing/src/galois.rs:559-568 | the same for two five-party sharings |
| `Shamir.AnyThreeOfFive` | ampc-secret-sharing/src/galois.rs:363-381 | any three of the five shares determine the secret |
| `Iris.BasisRoundTrip` | ampc-secret-sharing/src/galois.rs:128-148 | changing from basis A to the monomial basis and back changes nothing |
| `Iris.BasisBDot` | ampc-secret-sharing/src/galois.rs:151-178 | a dot product with basis-B coefficients is a linear functional of the ring product |
| `Iris.BasisADot` | ampc-secret-sharing/src/galois.rs:269-291 | in basis A that functional of a product is the dot product of the coefficients |
| `Iris.SecretShare` | ampc-secret-sharing/src/iris_vector.rs:199-235 | the three vectors are, chunk by chunk, the shares of the plaintext in basis A |
| `Iris.MultiplyLagrangeCoeffs` | ampc-secret-sharing/src/iris_vector.rs:376-392 | in place, every chunk is multiplied by the party's weight and changed to basis B |
| `Iris.SharedDotIsDot` | ampc-secret-sharing/src/iris_vector.rs:199-392 | summed over the parties, dots of prepared query shares with database shares are the plaintext dot modulo 2^16 |
| `Iris.SharedDotExact` | ampc-secret-sharing/src/iris_vector.rs:73-79 | with at most 512 entries in [-7, 7] the signed result is the exact dot product, at most 25088 in magnitude |
| `Iris.FiveSharesReconstruct` | ampc-secret-sharing/src/iris_vector.rs:245-283 | three different parties' shares of a chunk, as the addition-only encoder deals them, determine its plaintext coefficients |
| `Prf.GenU32Mod` | ampc-actor-utils/src/protocol/prf.rs:10-25 | the residue of the first accepted output, the position just behind it; fails exactly on modulus zero |
| `Prf.ResiduesEquallyLikely` | ampc-actor-utils/src/protocol/prf.rs:15-18 | every residue has exactly (bound + 1) / modulus accepted preimages, and fewer than modulus of the 2^64 outputs are rejected |
| `Prf.GenPermutation` | ampc-actor-utils/src/protocol/prf.rs:156-165 | both arrays end as the permutations of their generator's choices |
| `Prf.FisherYatesPermutes` | ampc-actor-utils/src/protocol/prf.rs:156-165 | whatever the choices, the result is a permutation |
| `Prf.FisherYatesInjective` | ampc-actor-utils/src/protocol/prf.rs:156-165 | different choices give different permutations |
| `Prf.ChoicesOf` | ampc-actor-utils/src/protocol/prf.rs:156-165 | every permutation arises from some choices |
| `Prf.EveryPermutationDrawn` | ampc-actor-utils/src/protocol/prf.rs:148-165 | every permutation is drawn from some fair generator, and from no other choices |
| `Prf.DrawsAgree` | ampc-actor-utils/src/protocol/prf.rs:148-165 | two holders of a key at the same position draw the same permutation and stay in step |
| `Draws.PermutationDrawn` | ampc-actor-utils/src/protocol/prf.rs:148-165 | whatever the generator, the permutation a session draws is that of the choices the rejection loop takes from the outputs at that position |
| `Draws.FairDelivers` | ampc-actor-utils/src/protocol/prf.rs:10-25 | every fair generator has outputs for every number of choices |
| `Draws.ValuesShown` | ampc-actor-utils/src/protocol/prf.rs:93-131 | every sequence of ring elements is drawn from some stream |
| `Draws.CoinsShown` | ampc-actor-utils/src/protocol/prf.rs:93-131 | every sequence of coins is drawn from some stream |
| `Shuffling.ShuffleTriplets` | ampc-actor-utils/src/protocol/shuffle.rs:39-53 | every batch is permuted by itself and triplets stay together |
| `Shuffling.Traffic` | ampc-actor-utils/src/protocol/shuffle.rs:136-281 | the three roles exchange their messages, end with empty channels and generators in step, and hold matching halves |
| `Shuffling.HalvesSum` | ampc-actor-utils/src/protocol/shuffle.rs:77-95 | all masks cancel: the two halves add up to the input permuted three times |
| `Sessions.Network.Shuffled` | ampc-actor-utils/src/protocol/prf.rs:156-165 | a drawn permutation has the size asked for and is one, whatever the generator returns; `Draws.PermutationDrawn` says which |
| `Shuffling.RandomShuffleBatch` | ampc-actor-utils/src/protocol/shuffle.rs:97-134 | every batch opens to in[pi01[pi20[pi12[i]]]] for the permutations drawn from the three keys, (id, code, mask) together, for every role rotation; fails exactly on empty or uneven input |
| `Draws.ShuffleChosen` | ampc-actor-utils/src/protocol/shuffle.rs:97-134 | for any choices of the three keys every batch opens to in[pi01[pi20[pi12[i]]]], each permutation the Fisher-Yates permutation of its key's choices |
| `Draws.ShuffleTo` | ampc-actor-utils/src/protocol/shuffle.rs:97-134 | for every permutation there is a session in which every batch opens to its entries in that order |
| `Interleaving.Diamond` | ampc-actor-utils/src/protocol/binary.rs:779-1034 | steps of different parties commute, and neither disables the other |
| `Interleaving.EveryRunCompletes` | ampc-actor-utils/src/protocol/shuffle.rs:136-281 | if one schedule finishes, every partial run can be continued to the same final state |
| `CallRuns.SplitRuns` | ampc-actor-utils/src/protocol/binary.rs:1265-1319 | a finishing schedule of the split's messages, in role numbering |
| `CallRuns.ShuffleRuns` | ampc-actor-utils/src/protocol/shuffle.rs:136-281 | a finishing schedule of the shuffle's messages in both directions |
| `Schedules.EveryInterleaving` | ampc-actor-utils/src/protocol/ops.rs:40-70 | for any sequence of calls there is one final state, with empty channels, that every interleaving reaches; no other reachable state is stuck |
| `Schedules.GeneratorsInStep` | ampc-actor-utils/src/protocol/prf.rs:93-131 | after any sequence of calls both holders of every key have made the same draws |
| `Outcomes.SomeProgramFollows` | ampc-actor-utils/src/protocol/ops.rs:40-70 | for every recorded run there are programs that send what was sent |
| `Outcomes.SessionIsRun` | ampc-actor-utils/src/protocol/ops.rs:40-70 | between calls, what happened in a session is a complete asynchronous run of its calls with the messages that were sent |
| `Outcomes.EveryScheduleAgrees` | ampc-actor-utils/src/protocol/ops.rs:40-70 | every other interleaving of the same programs can be continued to the outcome the session reached and stops nowhere else |
| `Outcomes.BitsInEverySchedule` | ampc-actor-utils/src/protocol/binary.rs:1787-1820 | in every interleaving every party opens the bits the session opened |
| `Outcomes.ValuesInEverySchedule` | ampc-actor-utils/src/protocol/ops.rs:215-242 | the same for ring elements |
| `Recovery.CheckConsistency` | ampc-server-utils/src/modifications.rs:373-405 | accepts a group if and only if every status is IN_PROGRESS or COMPLETED, the copies agree in request and input, and no two carry different serial ids |
| `Recovery.FlagsNeverRefuse` | ampc-server-utils/src/modifications.rs:373-405 | accepted snapshots stay accepted whatever persisted flags are changed and whatever serial ids or copies are left out |
| `Recovery.FreshSnapshotsAccepted` | ampc-server-utils/src/modifications.rs:373-405 | snapshots with one request and input per id and no serial ids are accepted if and only if all states are known |
| `Reconciliation.CompareModifications` | ampc-server-utils/src/modifications.rs:289-371 | updates and deletes in order of ids, exactly those the snapshots call for; refused if and only if some copies contradict each other |
| `RecoveryOutcome.EnsureLookback` | ampc-server-utils/src/modifications.rs:197-216 | passes if and only if x - y <= lookback for any two nodes' largest completed ids x and y, or the lookback is at least 2^63 - 1, where the 64-bit difference saturates |
| `RecoveryOutcome.LookbackBoundary` | ampc-server-utils/src/modifications.rs:197-216 | a gap between two nodes passes if and only if it is at most the lookback, with a third node that has completed nothing |
| `RecoveryOutcome.MakeRecoveryPlan` | ampc-server-utils/src/modifications.rs:219-250 | refused exactly by the lookback or a contradiction; a mutation is replayed if and only if it was persisted somewhere and is not already completed and persisted locally |
| `RecoveryOutcome.AppliedIsOutcome` | ampc-server-utils/src/modifications.rs:289-371 | applying a node's plan leaves exactly its completed-somewhere records, settled |
| `RecoveryOutcome.RefuseTogether` | ampc-server-utils/src/modifications.rs:197-250 | from the same snapshots in any order all nodes refuse or none does |
| `RecoveryOutcome.SurvivorsAgree` | ampc-server-utils/src/modifications.rs:326-363 | surviving copies of an id are completed and equal in persisted flag and serial id |
| `RecoveryOutcome.SecondPlanIsEmpty` | ampc-server-utils/src/modifications.rs:289-371 | after all plans are applied the plan of a second comparison is empty |
| `RecoveryOutcome.CrashThenRerun` | ampc-server-utils/src/modifications.rs:289-371 | after any part of the nodes has applied its plan, a re-run that passes the lookback check is consistent again and leads to the same records |
| `RecoveryOutcome.AppliedPlansNothing` | ampc-server-utils/src/modifications.rs:289-371 | in the re-run the plan of a node that had applied its plan is empty |
| `RecoveryOutcome.RerunReplaysTheSame` | ampc-server-utils/src/modifications.rs:219-250 | a node that had not is told to replay exactly what it was told before |
| `RecoveryOutcome.NeverReplayed` | ampc-server-utils/src/modifications.rs:218-250 | over a first run, a crash and a re-run no node replays a mutation it had completed and persisted |
| `RecoveryOutcome.NotReplayedAgain` | ampc-server-utils/src/modifications.rs:218-250 | nor does the re-run repeat what a node replayed with the plan it applied |
| `RecoveryOutcome.RerunLookback` | ampc-server-utils/src/modifications.rs:197-216 | the re-run passes the lookback check if and only if the frontiers told from the first snapshots, by who has applied its plan, are within the lookback |
| `RecoveryOutcome.RerunPlanned` | ampc-server-utils/src/modifications.rs:219-250 | a re-run is planned if and only if that holds: nothing else can refuse it |
| `RecoveryOutcome.SecondLookback` | ampc-server-utils/src/modifications.rs:197-216 | the second lookback check passes if and only if the largest locally held completed-somewhere ids are within the lookback |
| `RecoveryOutcome.SecondRecoveryRefused` | ampc-server-utils/src/modifications.rs:197-250 | snapshots of three nodes that recover once and are refused the next time, whoever else has applied its plan |
| `Barrier.Reachable` | ampc-server-utils/src/server_coordination.rs:305-356 | an inductive invariant over polls, inserts, checks, crashes and restarts: nobody lists anything newer than its last poll of a slot |
| `Barrier.CompleteRound` | ampc-server-utils/src/server_coordination.rs:1019-1045 | an accepted round shows both peers listing us and each other |
| `Barrier.SameThird` | ampc-server-utils/src/server_coordination.rs:938-1017 | two incarnations that passed and name each other name the same third one |
| `Barrier.MutualVisibility` | ampc-server-utils/src/server_coordination.rs:938-1017 | from passing on, an incarnation and the two it named list each other |
| `Barrier.ListsFreeze` | ampc-server-utils/src/server_coordination.rs:938-1017 | once passed, an incarnation's list and names stay the same in every continuation |
| `Barrier.PhasesAdvance` | ampc-server-utils/src/server_coordination.rs:305-356 | in every continuation an incarnation moves through the two barriers in order, only adds to its list and stays ready |
| `Barrier.ReadyHavePassed` | ampc-server-utils/src/server_coordination.rs:938-1017 | in every reachable state whoever is ready has passed and is listed by the two it named |
| `BarrierHold.UnlistedStaysBehind` | ampc-server-utils/src/server_coordination.rs:305-356 | if a ready incarnation does not list x, then in every continuation in which it stays up x does not get beyond the first barrier |
| `BarrierHold.OvertakenRound` | ampc-server-utils/src/server_coordination.rs:331-353 | in every such state a whole round of polls, inserts and a check is possible and leaves x where it is |
| `BarrierHold.RestartedStaysBehind` | ampc-server-utils/src/server_coordination.rs:331-353 | a run in which a node restarts while both others are ready, and its round fails |
| `BarrierRuns.OthersFollow` | ampc-server-utils/src/server_coordination.rs:938-1045 | once one node is through, as long as the three run on every round the others begin ends in a check that lets them on |
| `BarrierRuns.AllPass` | ampc-server-utils/src/server_coordination.rs:938-1045 | there is a run in which all three pass, name each other and get ready, each as soon as it is through |

## Left out

- Network transport, serialization, timeouts, retries, metrics and logging: channels carry sequences of ring elements, and waiting for a message is a step that is not enabled yet.
- Generator internals, key setup and every privacy claim: a generator is an arbitrary function of key and draw history; key i is given to parties i and i+1 from the start.
- Prf.GenU32Mod: termination rests on the generator not staying in the upper half of its range forever, which is a precondition on the outputs.
- Shuffling.RandomShuffleBatch: batches of length zero are excluded, as the source panics there.
- Counting.CompareThresholdBuckets: an empty list of distances is excluded, as the source panics there; likewise in the other bucket counts.
- Distances.ObliviousCrossCompare: says nothing about distances outside the stated magnitudes, where the ring comparison can wrap.
- Gates.AndProduct: several columns of length zero are excluded; the source panics when it cuts them apart.
- MsbAdders.AddMsbPrefix: widths below two are excluded; the source panics there.
- Thresholds given as floating-point ratios: the integer terms `a` and 25 * 2^16 * t are parameters.
- Bucket edge labels of the uniform histogram and `fill_buckets`: the same loop as `fill_buckets_di`, with floating-point labels.
- The outer products of `process_2d_inner`: the same sums as for the pairs of scores, over the bits of `Counting.CompareThresholdBuckets`.
- `secret_share_5_parties` as a loop over a vector: one chunk of it is `Shamir.Encode5MatIsParabolas` and `Iris.FiveSharesReconstruct`; face vectors share the same code.
- Selection with plain or shared ids without swapping: the same multiplexer as the swaps.
- Result message bodies and their replay after recovery: they differ between nodes and take no part in the decisions.
- Databases, queues and object stores: a node's recovery transaction is one atomic step.
- Readiness polling and heartbeats after the startup barrier: only polls, inserts, checks, crashes and restarts up to readiness are modelled.
