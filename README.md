# Color_Filter core, modelled in Dafny

Color_Filter sorts a folder of photographs into groups of similar colour.
This project models the part of it that decides the groups.

- **Advanced mode.** Each image becomes a signature: hue, lightness and
  saturation histograms, a tonal class, lightness statistics and the
  dominant Lab colours. Signatures are compared with one of four histogram
  metrics, weighted per channel. The distance matrix is clustered bottom up
  with Ward linkage, and the number of groups is chosen by the silhouette
  score. Each group gets a three-part Chinese name: tonal class, hue family
  and saturation level. Repeated names are numbered.
- **Simple mode.** K-means finds a few RGB colours per image. Their
  percentages are corrected to total 100. Each colour is classified as one
  of thirteen named colour categories.
- **Bookkeeping.** Category folders are created, images are moved into
  them without overwriting anything, and every move and created folder is
  recorded so that a rollback can undo them.

There is one Dafny module per source file:

| module | source file |
|---|---|
| `AdaptiveClustering` | `adaptive_clusterer.py` |
| `CategoryNaming` | `category_namer.py` |
| `SimilarityCalculation` | `similarity_calculator.py` |
| `ColorExtraction` | `extractor.py` |
| `FeatureExtraction` | `advanced_extractor.py` |
| `HistogramAnalysis` | `histogram_analyzer.py` |
| `ClassificationEngine` | `advanced_engine.py` |
| `Categories` | `category_manager.py` |
| `Rollback` | `rollback_manager.py` |

Some modules are shared:

- `ClusterSpec` specifies the Ward linkage (the closest-pair choice, Ward's update and the trace of distance matrices), the tree cut and the silhouette.
- `KMeans` is the K-means iteration that both extractors use.
- `Models` holds the enumerations and records, including the ones `src/core/__init__.py` imports but `models.py` does not show.
- `PathNames` and `FileStore` model `pathlib` names and the filesystem.
- `RealMath`, `Sorting`, `SeqUtil` and `Text` are helpers.

Code that updates state step by step is written as methods:

- the classes `AdaptiveClusterer`, `SimilarityCalculator`, `Engine`, `CategoryManager` and `RollbackManager`, with their fields;
- the Ward merge loop over an `array2` distance matrix;
- the in-place label rewrite of the tree cut over an `array`.

The methods' contracts tie their results, or the new state, to specification functions and predicates (for example `WardLinkage`, `CutLabels`, `SilhouetteScore`, `Run`), and the properties the source promises are proved about those as lemmas.

Floats are modelled as `real`. `sqrt`, `exp` and `ln` are a `RealOps` value passed in. `Sound(ops)` states the few facts the proofs use about them:

- `sqrt` is non-negative and inverts squaring;
- `exp` is positive, `exp(0) = 1`, and `exp(x) ≤ 1` for x ≤ 0;
- `ln(1) = 0`, and `ln` is at most 0 on (0, 1].

Several values that Python gets from outside are passed in as parameters instead:

- the random K-means initialisation is a permutation of pixel indices;
- `np.allclose` is a function;
- `time.time()` is a `now` value;
- feature extraction of one file is a function that may fail.

## Model

| member | source | states |
|---|---|---|
| AdaptiveClustering.RowStartClosed | src/core/adaptive_clusterer.py:56-61 | The condensed row of item i starts at i(2n−i−1)/2, so the row-major i<j listing has n(n−1)/2 entries |
| AdaptiveClustering.AppendMerge | src/core/adaptive_clusterer.py:103-104 | Recording a valid merge keeps the history well formed, retires the right id from the active set and gives the left id the combined size |
| AdaptiveClustering.AscendingAppend | src/core/adaptive_clusterer.py:87-104 | A merge no lower than the previous one keeps the recorded merge heights non-decreasing |
| AdaptiveClustering.SearchStep | src/core/adaptive_clusterer.py:250-256 | One step of the strict `>` search keeps "best is the first k with the highest score so far" |
| AdaptiveClustering.AdaptiveClusterer.constructor | src/core/adaptive_clusterer.py:30-44 | The clusterer keeps the given cluster range and linkage method |
| AdaptiveClustering.AdaptiveClusterer.Default | src/core/adaptive_clusterer.py:30-44 | The default clusterer searches 2..10 clusters with Ward linkage |
| AdaptiveClustering.AdaptiveClusterer.CondensedDistance | src/core/adaptive_clusterer.py:46-61 | The condensed vector has n(n−1)/2 entries, and entry CondensedIndex(n,i,j) is `distance_matrix[i,j]` for every i<j |
| AdaptiveClustering.AdaptiveClusterer.FindClosestPair | src/core/adaptive_clusterer.py:87-97 | It returns active ids i<j whose distance is minimal over all active pairs and strictly below every pair scanned before it, so ties go to the first pair in (i,j) order |
| AdaptiveClustering.AdaptiveClusterer.WardUpdate | src/core/adaptive_clusterer.py:107-128 | Each cell between the survivor and another active k becomes the Lance–Williams Ward distance, and every other cell is unchanged. If all active distances were at least the non-negative merge height, they still are after the update |
| AdaptiveClustering.AdaptiveClusterer.MergeClosest | src/core/adaptive_clusterer.py:87-132 | One pass of the linkage loop is one WardStep: the row merges the first closest active pair of the distances before the pass, at that distance and with the combined size, and the distances become Ward's update of them. The merge is no lower than the previous one |
| AdaptiveClustering.AdaptiveClusterer.TracedMerge | src/core/adaptive_clusterer.py:87-132 | One pass extends the Ward trace by the merge and the updated distances, and keeps the sizes, the active ids and the non-decreasing heights in step |
| AdaptiveClustering.AdaptiveClusterer.CopyDistances | src/core/adaptive_clusterer.py:78 | The merge loop works on a fresh copy with the same contents |
| AdaptiveClustering.AdaptiveClusterer.HierarchicalLinkage | src/core/adaptive_clusterer.py:63-134 | The rows are the Ward linkage of the distance matrix (WardLinkage, which WardLinkageUnique shows to be unique): n−1 well-formed merges, the first at the smallest distance, the heights non-decreasing for non-negative distances |
| AdaptiveClustering.AdaptiveClusterer.MaskAssign | src/core/adaptive_clusterer.py:159-161 | Exactly the labels equal to c1 or c2 become the new label, and the others are unchanged |
| AdaptiveClustering.AdaptiveClusterer.Relabel | src/core/adaptive_clusterer.py:163-166 | The labels are replaced by their ranks among the sorted distinct labels (see RenumberMonotone, RenumberOnto) |
| AdaptiveClustering.AdaptiveClusterer.CutTree | src/core/adaptive_clusterer.py:136-168 | The tree cut equals CutLabels, the specification whose cluster count CutClusterCount proves |
| AdaptiveClustering.AdaptiveClusterer.Silhouette | src/core/adaptive_clusterer.py:170-224 | The score is the mean of (b−a)/max(a,b) over all items. It is 0 with ≤1 or ≥n distinct labels, and lies in [−1,1] for non-negative distances |
| AdaptiveClustering.AdaptiveClusterer.ScoreCut | src/core/adaptive_clusterer.py:251-252 | The score of k is the silhouette of the tree cut into k clusters |
| AdaptiveClustering.AdaptiveClusterer.FindOptimalK | src/core/adaptive_clusterer.py:226-258 | An empty range [max(2,min), min(n−1,max)] gives (its lower end, 0.0). Otherwise k is in range and its score is ≥ every score in the range. A score above the −1 start is KScore(k), and every smaller k scores strictly less; a score of −1 leaves k at the lower end |
| AdaptiveClustering.AdaptiveClusterer.CutAtBestK | src/core/adaptive_clusterer.py:300-308 | The labels are the cut at the k of the search. That k is in range, no k there scores higher, and every smaller k scores strictly less, so ties go to the smallest k as the strict `>` keeps it |
| AdaptiveClustering.AdaptiveClusterer.Cluster | src/core/adaptive_clusterer.py:260-308 | n<2 gives all-zero labels, one cluster and score 0. Otherwise the linkage is the Ward linkage of the matrix and the labels are its tree cut at nClusters, with min(nClusters, n) contiguous labels 0..d−1 (fewer than nClusters only when the search range is empty and its lower end exceeds n). An explicit k is clamped to [1,n] and scored by the silhouette. Without one, an empty range gives its lower end with score 0, and otherwise the smallest k with the best score of the search |
| ClusterSpec.ActiveCount | src/core/adaptive_clusterer.py:87 | After m merges exactly n−m ids are active, all in 0..n−1, so at most n−1 merges happen |
| ClusterSpec.SizesPositive | src/core/adaptive_clusterer.py:103 | Every cluster size stays at least 1 |
| ClusterSpec.ActiveTotal | src/core/adaptive_clusterer.py:131-132 | The sizes of the active clusters always sum to n |
| ClusterSpec.LastMergeSize | src/core/adaptive_clusterer.py:103-104 | The last of the n−1 merges records size n |
| ClusterSpec.WardSquareBound | src/core/adaptive_clusterer.py:118-126 | If the merged pair is the closest, the Ward formula's squared distance is at least the squared merge distance |
| ClusterSpec.WardFirstMerge | src/core/adaptive_clusterer.py:87-97 | The first merge of a Ward trace is at the smallest distance of the matrix |
| ClusterSpec.WardTraceAppend | src/core/adaptive_clusterer.py:87-132 | A Ward step from the last matrix of a trace extends the trace |
| ClusterSpec.ClosestPairUnique | src/core/adaptive_clusterer.py:87-97 | The scan with strict `<` picks one pair only |
| ClusterSpec.WardUpdatedUnique | src/core/adaptive_clusterer.py:107-128 | Ward's update of a merge yields one matrix only |
| ClusterSpec.WardTraceUnique | src/core/adaptive_clusterer.py:87-132 | Two Ward traces from the same matrix agree merge by merge and matrix by matrix |
| ClusterSpec.WardLinkageUnique | src/core/adaptive_clusterer.py:63-134 | The Ward linkage of a matrix is unique |
| ClusterSpec.WardTraceWellFormed | src/core/adaptive_clusterer.py:99-132 | Every Ward trace is a well-formed linkage |
| ClusterSpec.WardAtLeastMergeDistance | src/core/adaptive_clusterer.py:118-128 | If the merged pair is the closest, the updated Ward distance is at least the merge distance |
| ClusterSpec.RenumberMonotone | src/core/adaptive_clusterer.py:163-166 | Renumbering preserves the order and the equality of labels, in both directions |
| ClusterSpec.RenumberOnto | src/core/adaptive_clusterer.py:163-166 | Renumbered labels are exactly 0..d−1, where d is the number of distinct original labels |
| ClusterSpec.ApplyMergesTracksActive | src/core/adaptive_clusterer.py:149-161 | After the recorded merges, the labels in use are exactly the active ids, and each surviving id labels itself |
| ClusterSpec.MergeLabelsActive | src/core/adaptive_clusterer.py:159-161 | One merge of two active labels removes the larger from the labels in use and leaves every survivor labelling itself |
| ClusterSpec.CutClusterCount | src/core/adaptive_clusterer.py:136-168 | Cutting a full linkage at k gives exactly min(max(k,1),n) distinct labels, and they are 0..d−1 |
| ClusterSpec.SilhouetteInRange | src/core/adaptive_clusterer.py:216-224 | With non-negative distances the silhouette score lies in [−1,1] |
| CategoryNaming.HueRangesPartition | src/core/category_namer.py:31-33 | The warm, cool and neutral bin ranges are pairwise disjoint and together cover exactly bins 0..179 |
| CategoryNaming.FamilyMassesCoverHistogram | src/core/category_namer.py:65-72 | The warm, cool and neutral masses of a 180-bin histogram add up to its total |
| CategoryNaming.HueDecisionCases | src/core/category_namer.py:75-85 | WARM iff warm ≥ 0.1 and ≥ both others; COOL iff cool ≥ 0.1, > warm and ≥ neutral; NEUTRAL iff the largest mass < 0.1 or neutral strictly exceeds both |
| CategoryNaming.AnalyzeDominantHue | src/core/category_namer.py:44-85 | Averages the histograms bin by bin and decides as in HueDecisionCases; NEUTRAL for no histograms |
| CategoryNaming.AnalyzeSaturation | src/core/category_namer.py:87-109 | MODERATE for no input; otherwise VIVID iff mean ≥ 150, MODERATE iff 80 ≤ mean < 150, MUTED iff 30 ≤ mean < 80, NEUTRAL iff mean < 30 |
| CategoryNaming.SaturationMonotone | src/core/category_namer.py:97-109 | A higher mean saturation never gives a lower level |
| CategoryNaming.TonalCountsTotal | src/core/category_namer.py:125-132 | The three class counts add up to the number of inputs |
| CategoryNaming.DominantTonalIsMajority | src/core/category_namer.py:121-135 | The result occurs in the input with maximal count; ties prefer HIGH_KEY, then MID_KEY, then LOW_KEY |
| CategoryNaming.AnalyzeTonalClass | src/core/category_namer.py:111-135 | The counting loop returns DominantTonal: MID_KEY for no input, otherwise the majority of DominantTonalIsMajority |
| CategoryNaming.ComposeNameDecodes | src/core/category_namer.py:164-170 | A name is six characters: tonal, hue and saturation labels in that order, and never "未分类" |
| CategoryNaming.ComposeNameInjective | src/core/category_namer.py:164-170 | Two names are equal iff their three components are |
| CategoryNaming.ComposeNameHasNoUnderscore | src/core/category_namer.py:164-170 | A composed name contains no '_' |
| CategoryNaming.ClusterNameHasNoUnderscore | src/core/category_namer.py:150-170 | No base name of a cluster, "未分类" included, contains '_' |
| CategoryNaming.GenerateName | src/core/category_namer.py:137-170 | "未分类" for an empty cluster; otherwise the composition of the dominant tonal class, hue family and saturation level |
| CategoryNaming.GenerateNameWithDetails | src/core/category_namer.py:172-198 | Same name as GenerateName, with its three components; for an empty cluster the components are MID_KEY, NEUTRAL, MODERATE |
| CategoryNaming.FirstPassHead | src/core/category_namer.py:212-225 | In the first pass, a base's first occurrence keeps its name and the r-th repeat becomes base_r; the text before '_' is always the base |
| CategoryNaming.TalliesStep | src/core/category_namer.py:215-225 | The `name_counts` map counts the bases seen so far, and each step names the base as the first pass does |
| CategoryNaming.NameClusters | src/core/category_namer.py:212-225 | The first loop produces FirstPass of the clusters' base names |
| CategoryNaming.NeedsNumberIff | src/core/category_namer.py:231-232 | The second-pass test for a base holds iff that base occurs more than once |
| CategoryNaming.HeadCountIsRank | src/core/category_namer.py:228-240 | Among the first m first-pass names, the number headed by b is b's count among the first m bases |
| CategoryNaming.NumberingStep | src/core/category_namer.py:230-240 | The `seen` map tracks each numbered base's running count, and each step emits base_1, base_{seen+1} or the name unchanged |
| CategoryNaming.NumberName | src/core/category_namer.py:230-240 | One iteration of the second loop emits the final name and keeps the `seen` invariant |
| CategoryNaming.NumberRepeatedNames | src/core/category_namer.py:227-242 | The second loop produces FinalNames of the first-pass names |
| CategoryNaming.FinalNameShape | src/core/category_namer.py:212-242 | A base occurring once stays as it is; the r-th of m>1 occurrences becomes base_r |
| CategoryNaming.FinalNamesDistinct | src/core/category_namer.py:212-242 | Bases without '_' yield pairwise distinct final names |
| CategoryNaming.UniqueNamesFacts | src/core/category_namer.py:212-242 | Both passes together: each final name has the FinalNameShape form, and all are pairwise distinct |
| CategoryNaming.GenerateUniqueNames | src/core/category_namer.py:200-242 | One name per cluster, in order: unique bases unchanged, repeated bases numbered base_1..base_m in order, all names pairwise distinct |
| SimilarityCalculation.IntersectionSymmetric | src/core/similarity_calculator.py:41-55 | Histogram intersection is symmetric |
| SimilarityCalculation.IntersectionBounds | src/core/similarity_calculator.py:41-55 | For non-negative bins the intersection lies between 0 and the smaller of the two totals |
| SimilarityCalculation.IntersectionSelf | src/core/similarity_calculator.py:41-55 | A histogram's intersection with itself is its total |
| SimilarityCalculation.ChiTerm | src/core/similarity_calculator.py:71-73 | With the 1e-10 guard a bin term is 0 when the bins agree and positive otherwise |
| SimilarityCalculation.ChiSquareZeroIff | src/core/similarity_calculator.py:57-73 | Chi-square is non-negative, and zero iff the histograms are equal |
| SimilarityCalculation.ChiSquareSymmetric | src/core/similarity_calculator.py:57-73 | Chi-square is symmetric |
| SimilarityCalculation.BhattacharyyaDistance | src/core/similarity_calculator.py:89-92 | With the coefficient clipped to [1e-10,1], −ln of it is non-negative |
| SimilarityCalculation.BhattacharyyaSymmetric | src/core/similarity_calculator.py:75-92 | The coefficient and the distance are symmetric |
| SimilarityCalculation.CoefficientSelf | src/core/similarity_calculator.py:86-88 | A non-negative histogram's coefficient with itself is its total |
| SimilarityCalculation.BhattacharyyaSelf | src/core/similarity_calculator.py:75-92 | The distance of a distribution to itself is 0 |
| SimilarityCalculation.CauchySchwarz | src/core/similarity_calculator.py:110-120 | For any two vectors, (x·y)² ≤ (x·x)(y·y); the correlation applies it to the centred histograms |
| SimilarityCalculation.CorrelationInRange | src/core/similarity_calculator.py:94-120 | The correlation lies in [−1,1], the near-zero-variance case giving 0 |
| SimilarityCalculation.CorrelationSymmetric | src/core/similarity_calculator.py:94-120 | The correlation is symmetric |
| SimilarityCalculation.CorrelationSelf | src/core/similarity_calculator.py:94-120 | A histogram's correlation with itself is 1, or 0 when its centred variance is below 1e-10 |
| SimilarityCalculation.HistogramDistanceInUnit | src/core/similarity_calculator.py:122-159 | For two distributions, each of the four metric-to-distance mappings lies in [0,1] |
| SimilarityCalculation.HistogramDistanceSymmetric | src/core/similarity_calculator.py:122-159 | Each metric's distance is symmetric |
| SimilarityCalculation.HistogramDistanceSelf | src/core/similarity_calculator.py:122-159 | A distribution is at distance 0 from itself; the one exception is a flat histogram under correlation, which gives 0.5 |
| SimilarityCalculation.WeightedDistanceInUnit | src/core/similarity_calculator.py:175-196 | With non-negative weights summing to 1, the weighted hue/lightness/saturation distance lies in [0,1] |
| SimilarityCalculation.WeightedDistanceSymmetric | src/core/similarity_calculator.py:175-196 | The weighted distance is symmetric |
| SimilarityCalculation.SimilarityCalculator.constructor | src/core/similarity_calculator.py:28-39 | The given weights, or the defaults when none are given, and the given metric |
| SimilarityCalculation.SimilarityCalculator.Default | src/core/similarity_calculator.py:28-39 | The default calculator uses the default weights and the Bhattacharyya metric |
| SimilarityCalculation.SimilarityCalculator.ComputeHistogramDistance | src/core/similarity_calculator.py:122-159 | The distance under the given metric, or under the calculator's own metric when none is given; for distributions it lies in [0,1] |
| SimilarityCalculation.SimilarityCalculator.ComputeSimilarity | src/core/similarity_calculator.py:161-196 | 1 minus the weighted distance under the normalised weights; it lies in [0,1] for normalised signatures |
| SimilarityCalculation.SimilarityCalculator.ComputeDistance | src/core/similarity_calculator.py:198-209 | 1 − similarity, which is the weighted distance under the normalised weights, in [0,1] |
| SimilarityCalculation.SimilarityCalculator.DistanceSymmetric | src/core/similarity_calculator.py:198-209 | compute_distance(f1,f2) = compute_distance(f2,f1) |
| SimilarityCalculation.SimilarityCalculator.BuildDistanceMatrix | src/core/similarity_calculator.py:211-230 | An n×n matrix with a zero diagonal; cell (i,j) for i<j is compute_distance(i,j) and is mirrored to (j,i); every cell is in [0,1] for normalised signatures |
| SimilarityCalculation.SimilarityCalculator.SetWeights | src/core/similarity_calculator.py:232-234 | Replaces the weights and leaves the metric unchanged |
| SimilarityCalculation.SimilarityCalculator.SetMetric | src/core/similarity_calculator.py:236-238 | Replaces the metric and leaves the weights unchanged |
| ColorExtraction.GrayscaleIsSpread | src/core/extractor.py:264-278 | The three pairwise channel differences are all ≤ threshold iff max − min ≤ threshold |
| ColorExtraction.EuclideanDistanceFacts | src/core/extractor.py:247-262 | The RGB distance is symmetric and non-negative, and 0 iff the colours are equal |
| ColorExtraction.SqrtOrder | src/core/extractor.py:206-216 | Comparing square roots is the same as comparing the squared sums, so the nearest colour is the same either way |
| ColorExtraction.ClassifyGray | src/core/extractor.py:196-203 | A grey input is BLACK iff r+g+b < 150, WHITE iff > 600, GRAY otherwise, i.e. mean < 50, > 200, else |
| ColorExtraction.ChromaticOrdinals | src/core/extractor.py:66-79 | The first nine reference entries are the chromatic categories, in enumeration order |
| ColorExtraction.ClassifyChromatic | src/core/extractor.py:206-216 | A non-grey input gets the chromatic reference colour at minimal distance; every earlier reference is strictly farther; it is never black, white, grey or other |
| ColorExtraction.AchromaticPositions | src/core/extractor.py:66-79 | Twelve reference colours; black, white and grey are exactly the last three |
| ColorExtraction.ClassifyReferences | src/core/extractor.py:66-79 | Every reference colour is classified as its own category |
| ColorExtraction.ClassifyColor | src/core/extractor.py:178-216 | The grey test and the running-minimum scan return Classify(rgb), as characterised by ClassifyGray and ClassifyChromatic |
| ColorExtraction.CenterRgbValid | src/core/extractor.py:132 | Truncating a centre that lies in [0,255]³ gives a valid RGB triple |
| RealMath.RoundedSum | src/core/extractor.py:145 | Rounding n shares to cents moves their total by at most n·0.005; the dominant-colour shares of src/core/advanced_extractor.py:286 rely on it too |
| ColorExtraction.BuildColors | src/core/extractor.py:124-147 | One colour per centre, in order: the truncated centre, its share of the labels in cents (0 for an empty cluster), and its category; the shares total within n·0.005 of 100 |
| ColorExtraction.Corrected | src/core/extractor.py:150-159 | Only the first largest entry may change; the total is within 0.01 of 100, and exactly 100 when the shares are in cents |
| ColorExtraction.CorrectedSum | src/core/extractor.py:155-159 | Replacing one percentage changes the total by exactly the difference |
| ColorExtraction.CorrectedCents | src/core/extractor.py:153-157 | Shares in cents, corrected by the rounded difference, total exactly 100 |
| ColorExtraction.UncorrectedSum | src/core/extractor.py:150-151 | Shares in cents within 0.001 of 100 already total exactly 100 |
| ColorExtraction.AdjustLargest | src/core/extractor.py:150-159 | The in-code correction equals Corrected |
| ColorExtraction.SortColors | src/core/extractor.py:162 | Sorted by descending percentage, a permutation of the input, with the same total |
| ColorExtraction.CorrectPercentages | src/core/extractor.py:149-162 | Corrected, then sorted descending: the result is sorted by share and is a permutation of the corrected colours |
| ColorExtraction.SortedTotals | src/core/extractor.py:150-162 | The corrected and sorted colours total within 0.01 of 100, and exactly 100 when the shares are in cents |
| ColorExtraction.DominantIsLargest | src/core/extractor.py:162-165 | The dominant category is that of a colour with maximal corrected percentage, or OTHER for no colours |
| ColorExtraction.SimpleKMeans | src/core/extractor.py:16-59 | Exactly n_colors centres and one label in [0,n_colors) per pixel, equal to the K-means run from the chosen pixels |
| ColorExtraction.ClusterColors | src/core/extractor.py:121-147 | The colours are those of the K-means run on the pixels, one per centre in order (ColorsOf of KMeansOf): n_colors colours with shares in cents, valid RGB for valid pixels |
| ColorExtraction.ColorsOf | src/core/extractor.py:124-147 | One colour per centre of a clustering, in centre order |
| ColorExtraction.DominantColors | src/core/extractor.py:121-162 | The K-means colours, corrected to 100 and sorted by descending percentage: n_colors colours totalling exactly 100 |
| ColorExtraction.ExtractColors | src/core/extractor.py:92-176 | A ValueError iff n_colors is outside [1, number of pixels]. Otherwise the colours are the K-means colours of the pixels, corrected and sorted descending; they total exactly 100 and carry category names, and the dominant category is the first colour's |
| KMeans.SquaredDistanceZero | src/core/extractor.py:40 | The squared distance is 0 iff the points coincide |
| KMeans.Nearest | src/core/extractor.py:43 | `argmin`: a centre at minimal distance, strictly closer than every earlier centre |
| KMeans.Assign | src/core/extractor.py:38-43 | Every label is in [0,k) and names the first nearest centre of its pixel |
| KMeans.Members | src/core/extractor.py:48-50 | The pixels of a cluster are as many as its labels and all come from the input |
| KMeans.Update | src/core/extractor.py:46-52 | A centre with members moves to their mean; a centre without members stays |
| KMeans.RoundsBound | src/core/extractor.py:36-57 | The loop runs at least once and at most max_iter times |
| KMeans.RunSizes | src/core/extractor.py:36-59 | The run returns one centre per initial centre and one label per pixel |
| KMeans.RunShape | src/core/extractor.py:36-59 | The result keeps the number of centres; its labels are the assignment to the last centres, and its centres are those or their update |
| KMeans.CentroidInBox | src/core/extractor.py:50 | The mean of points in a box lies in the box |
| KMeans.UpdateInBox | src/core/extractor.py:46-52 | Updating keeps centres inside the pixels' box |
| KMeans.RunInBox | src/core/extractor.py:36-57 | Centres started from pixels in [0,255]³ stay in [0,255]³ |
| KMeans.Pick | src/core/extractor.py:33-34 | The initial centres are the pixels at the chosen indices |
| KMeans.UpdateCenters | src/core/extractor.py:46-52 | The update loop computes Update |
| KMeans.Iterate | src/core/extractor.py:36-59 | The iteration loop computes Run: same number of centres, one label in [0,k) per pixel |
| KMeans.CountsTotal | src/core/extractor.py:124-137 | The cluster sizes add up to the number of labels |
| KMeans.SharesTotal | src/core/extractor.py:134-139 | The exact percentages add up to 100 |
| FeatureExtraction.Mod360 | src/core/advanced_extractor.py:126-134 | Python's float `% 360` lies in [0,360) |
| FeatureExtraction.HuePrecedence | src/core/advanced_extractor.py:119-134 | Hue is 0 for grey pixels; otherwise the blue formula when blue is maximal, else green, else red, so later masks win ties |
| FeatureExtraction.HsvRanges | src/core/advanced_extractor.py:102-139 | For a valid pixel H ∈ 0..179 and S ∈ 0..255; V is the maximal channel; S=0 iff the channels are equal, and then H=0 |
| FeatureExtraction.MaskedAssign | src/core/advanced_extractor.py:126 | numpy's `h[mask] = value[mask]`: an entry whose pixel is in the mask takes the pixel's value, and every other entry keeps its old value |
| FeatureExtraction.HueChannel | src/core/advanced_extractor.py:119-134 | The three masked assignments into a zeroed array give every pixel the hue Hue assigns it |
| FeatureExtraction.RgbToHsv | src/core/advanced_extractor.py:94-141 | Converts every pixel with HsvOf, in order |
| FeatureExtraction.AllCounted | src/core/advanced_extractor.py:203 | When all values are in [0,bins), every value is counted |
| FeatureExtraction.CountBins | src/core/advanced_extractor.py:203 | Counts each bin; the counts add up to the number of values in range |
| FeatureExtraction.ComputeHistogram | src/core/advanced_extractor.py:191-210 | `bins` non-negative entries. Normalised with a positive total they sum to 1; with nothing counted they are all 0 |
| FeatureExtraction.VarianceZero | src/core/advanced_extractor.py:224-225 | The population variance is non-negative, and zero iff all values are equal |
| FeatureExtraction.LightnessStatsFacts | src/core/advanced_extractor.py:212-233 | The mean lies within the values' bounds; std ≥ 0, with std = 0 iff all values are equal, and then the skewness is 0 |
| FeatureExtraction.TonalMonotone | src/core/advanced_extractor.py:235-250 | A brighter mean never gives a darker class, and both thresholds themselves classify as MID_KEY |
| FeatureExtraction.AdvancedKMeans | src/core/advanced_extractor.py:20-50 | K is clamped to the number of samples; one label in [0,K) per pixel, equal to the K-means run from the chosen pixels |
| FeatureExtraction.DominantsOf | src/core/advanced_extractor.py:268-287 | One DominantColor per centre of a clustering, in centre order |
| FeatureExtraction.ClusterDominantRanges | src/core/advanced_extractor.py:279-282 | A centre in [0,255]³ gives L ∈ [0,100] and a, b ∈ [−128,127] |
| FeatureExtraction.CollectDominantColors | src/core/advanced_extractor.py:268-287 | One colour per centre, in order, with its share in cents (0 for an empty cluster); the shares total within K·0.005 of 100 |
| FeatureExtraction.SortDominant | src/core/advanced_extractor.py:290 | Sorted by descending percentage, a permutation, with the same total |
| FeatureExtraction.SortedDominantTotal | src/core/advanced_extractor.py:290 | Sorting keeps the shares within K·0.005 of 100 |
| FeatureExtraction.ExtractDominantColors | src/core/advanced_extractor.py:252-292 | Fails iff there are no pixels or fewer than one colour is asked for. Otherwise the colours of the K-means run on the Lab pixels (DominantsOf of DominantRun) sorted descending: K colours in cents, totalling within K·0.005 of 100, with Lab components in range |
| HistogramAnalysis.BinWidth | src/core/histogram_analyzer.py:45 | A bin is 256/bins wide, positive, and the bins span exactly 256 |
| HistogramAnalysis.BinValue | src/core/histogram_analyzer.py:114 | The bin start values are non-negative |
| HistogramAnalysis.BinCenters | src/core/histogram_analyzer.py:45 | One centre per bin, i·(256/bins) + 256/bins/2 |
| HistogramAnalysis.BinValueOrder | src/core/histogram_analyzer.py:114-121 | Bin start values increase with the index, and the last starts at 256 − width |
| HistogramAnalysis.BinCenterFacts | src/core/histogram_analyzer.py:66 | Centres increase and lie strictly inside (0,256) |
| HistogramAnalysis.WeightedBounds | src/core/histogram_analyzer.py:46 | A non-negative weighting of values in [lo,hi] lies within [lo·total, hi·total] |
| HistogramAnalysis.HistMeanBounds | src/core/histogram_analyzer.py:69 | For a normalised histogram the mean lies between the first and the last bin centre |
| HistogramAnalysis.HistVarianceNonNegative | src/core/histogram_analyzer.py:72 | A non-negative histogram has non-negative variance |
| HistogramAnalysis.ComputeLightnessStats | src/core/histogram_analyzer.py:55-81 | Fails exactly on an empty histogram; the mean is the weighted mean of the bin centres; skewness is 0 when std is not positive |
| HistogramAnalysis.StatsStdDeviation | src/core/histogram_analyzer.py:72-73 | std ≥ 0 and std² is the weighted variance |
| HistogramAnalysis.ZeroSpreadStats | src/core/histogram_analyzer.py:73-79 | Zero spread gives std 0 and skewness 0 |
| HistogramAnalysis.SingleBinMean | src/core/histogram_analyzer.py:69 | All mass in one bin gives that bin's centre as the mean |
| HistogramAnalysis.SingleBinVariance | src/core/histogram_analyzer.py:72 | All mass in one bin gives variance 0 |
| HistogramAnalysis.SingleBinStats | src/core/histogram_analyzer.py:65-81 | All mass in one bin gives mean = that centre, std 0, skewness 0 |
| HistogramAnalysis.ComputeContrast | src/core/histogram_analyzer.py:83-94 | Fails exactly on an empty histogram |
| HistogramAnalysis.ContrastIsDeviation | src/core/histogram_analyzer.py:93-94 | Contrast is the std: non-negative, and its square is the weighted variance |
| HistogramAnalysis.ClassifyTonalRange | src/core/histogram_analyzer.py:33-53 | Fails on an empty histogram. Otherwise HIGH_KEY iff mean > high; LOW_KEY iff not that and mean < low; MID_KEY iff low ≤ mean ≤ high |
| HistogramAnalysis.HighKeyFromMassAbove | src/core/histogram_analyzer.py:44-49 | A normalised histogram with no mass below a bin whose centre exceeds the high threshold is HIGH_KEY |
| HistogramAnalysis.LowKeyFromMassBelow | src/core/histogram_analyzer.py:44-51 | A normalised histogram with no mass above a bin whose centre is under the low threshold is LOW_KEY |
| HistogramAnalysis.Cumsum | src/core/histogram_analyzer.py:111 | Entry i is the sum of the first i+1 bins |
| HistogramAnalysis.CumsumNondecreasing | src/core/histogram_analyzer.py:111 | The cumulative sum of a non-negative histogram never decreases |
| HistogramAnalysis.SearchSorted | src/core/histogram_analyzer.py:117-118 | The first index whose entry is ≥ v; all earlier entries are < v |
| HistogramAnalysis.SearchSortedMonotone | src/core/histogram_analyzer.py:117-118 | A larger target never gives a smaller index |
| HistogramAnalysis.SearchSortedWithinTotal | src/core/histogram_analyzer.py:117-120 | A target at most the total mass is found inside the histogram |
| HistogramAnalysis.ComputeDynamicRange | src/core/histogram_analyzer.py:96-123 | Fails on an empty histogram. Otherwise high bin value − low bin value, with both searchsorted indices clamped to bins−1 |
| HistogramAnalysis.DynamicRangeBounds | src/core/histogram_analyzer.py:111-123 | For low percentile ≤ high percentile the range lies in [0, 256 − width] |
| ClassificationEngine.ExtractedCount | src/core/advanced_engine.py:88-98 | Extracted plus skipped images make up all paths; nothing is skipped iff every image is extracted |
| ClassificationEngine.ExtractedAll | src/core/advanced_engine.py:88-98 | When no extraction fails, the features are those of every path, in input order |
| ClassificationEngine.Groups | src/core/advanced_engine.py:207-213 | One group per distinct label, in ascending label order |
| ClassificationEngine.GroupUpToMembers | src/core/advanced_engine.py:212 | A group holds only input features |
| ClassificationEngine.SizesTotal | src/core/advanced_engine.py:219-234 | Over strictly increasing distinct labels, the group sizes add up to the number of items |
| ClassificationEngine.ImageTotalOfGroups | src/core/advanced_engine.py:232 | The image counts of the records are the group sizes summed |
| ClassificationEngine.RecordsFacts | src/core/advanced_engine.py:219-234 | Records for the groups with distinct names have increasing ids and distinct names, and their counts add up to the number of features |
| ClassificationEngine.Engine.constructor | src/core/advanced_engine.py:38-56 | The engine keeps its calculator and clusterer |
| ClassificationEngine.Engine.ExtractAllFeatures | src/core/advanced_engine.py:71-100 | The features of the images whose extraction succeeded, in input order; failures are skipped and counted |
| ClassificationEngine.Engine.DescribeGroup | src/core/advanced_engine.py:219-233 | One record: id = label, the group's paths and count, its name details, and the given unique name |
| ClassificationEngine.Engine.DescribeGroups | src/core/advanced_engine.py:218-234 | One record per group, in order, each describing its group under names[i] |
| ClassificationEngine.Engine.BuildClusterInfo | src/core/advanced_engine.py:192-236 | One record per distinct label in ascending order, with that label's features in input order. Each carries the de-duplicated name; ids and names are distinct, and the counts add up to the number of features |
| ClassificationEngine.Engine.Classify | src/core/advanced_engine.py:102-190 | No images gives no clusters, 0, 0.0. Fewer than two features give one "全部图片" cluster of all of them. Otherwise one record per cluster of the cut, distinct, with counts summing to the number of features |
| Categories.NewFoldersFacts | src/core/category_manager.py:53-61 | The created list holds exactly the requested folders that did not exist, each once |
| Categories.NewFoldersAll | src/core/category_manager.py:53-61 | Distinct, absent folders are all created, in order |
| Categories.DefaultFoldersDistinct | src/core/category_manager.py:49-51 | With no list, the thirteen category folders are requested, all distinct |
| Categories.NumberedBound | src/core/category_manager.py:137-144 | Numbered siblings 1..c that all exist are at least c entries, which bounds the counter loop |
| Categories.TakenBound | src/core/category_manager.py:137-144 | The counter never exceeds the number of existing paths |
| Categories.CategoryManager.constructor | src/core/category_manager.py:19-27 | The base path as given and no created folders |
| Categories.CategoryManager.CategoryPath | src/core/category_manager.py:107-117 | The category's folder is the entry of that name directly in the base path |
| Categories.ResolvedNameUnique | src/core/category_manager.py:119-144 | Only one name is the resolved one, since the first free number is unique |
| Categories.CategoryManager.ResolveFilenameConflict | src/core/category_manager.py:119-144 | The result never exists; an absent path is returned unchanged; otherwise the first free `{stem}_{n}{suffix}` with n ≥ 1 |
| Categories.CategoryManager.CreateCategoryFolders | src/core/category_manager.py:39-61 | Creates and records exactly the absent requested folders, in order (all categories by default); afterwards every requested folder exists and no file changes |
| Categories.CategoryManager.MoveImage | src/core/category_manager.py:63-105 | A missing source gives FileNotFoundError with nothing changed. Otherwise a missing category folder is created and recorded. The image then moves to the name resolved from its own name in that folder (the name itself if free, else the first free numbered one), and the record holds the source, that destination and the time. The only other outcome is a PermissionError from the move, and that cannot happen when no path is protected |
| Categories.DestinationNamed | src/core/category_manager.py:92-93 | The resolved destination lies in the category folder under the image's name or a numbered variant of it |
| Rollback.UndoMoveCases | src/core/rollback_manager.py:65-96 | Undoing a record fails as "destination missing", "source occupied" or a refused move, told apart by the disk; only success changes the files, and it restores the source |
| Rollback.UndoMovesCounted | src/core/rollback_manager.py:65-96 | Each record adds exactly one to the successes or the failures; each failure lists one path, the source or the destination of a record |
| Rollback.RemoveEmptyFoldersFacts | src/core/rollback_manager.py:99-109 | Folder removal keeps every file, removes only recorded folders, and never removes a folder holding a file |
| Rollback.ChildBeforeParent | src/core/rollback_manager.py:98-99 | Sorted longest path first, a nested folder is tried before its parent |
| Rollback.RollbackManager.constructor | src/core/rollback_manager.py:18-21 | Both lists start empty |
| Rollback.RollbackManager.HasRecords | src/core/rollback_manager.py:121-128 | True iff the record count is positive |
| Rollback.RollbackManager.RecordMove | src/core/rollback_manager.py:33-40 | Appends the record; the count grows by one and has_records holds |
| Rollback.RollbackManager.RecordFolderCreation | src/core/rollback_manager.py:42-51 | Appends the folder only if absent, so no folder is listed twice |
| Rollback.RollbackManager.Clear | src/core/rollback_manager.py:116-119 | Both lists become empty |
| Rollback.RollbackManager.Rollback | src/core/rollback_manager.py:53-114 | Records are undone latest timestamp first, then recorded folders are tried longest path first. success + failed = number of records, one listed path per failure, and both lists end empty, so the manager's no-duplicate-folder invariant holds |
| PathNames.Name | src/core/category_manager.py:92 | `Path.name` holds no '/' and is the tail of the path |
| PathNames.JoinSplits | src/core/category_manager.py:84-92 | Joining a name to a folder gives an entry whose name and parent are those two |
| PathNames.JoinInjective | src/core/category_manager.py:55 | Different names give different entries of a folder |
| PathNames.ParentShorter | src/core/rollback_manager.py:99 | A nested path's parent is strictly shorter than the path |
| PathNames.StemSuffix | src/core/category_manager.py:133-134 | Stem + suffix is the name again; a suffix is empty or a dot, then at least one character, with no further dot |
| PathNames.NumberedSibling | src/core/category_manager.py:140-141 | `parent / f"{stem}_{n}{suffix}"` lies in the same folder and is named stem_n plus suffix |
| PathNames.NumberedInjective | src/core/category_manager.py:138-144 | Different counters give different candidate paths |
| FileStore.MakeDir | src/core/category_manager.py:57 | After mkdir the folder exists, nothing else appears, and no file changes |
| FileStore.Move | src/core/rollback_manager.py:90 | `shutil.move` onto a free path fails iff either path is protected; otherwise exactly the source disappears and the destination appears |
| FileStore.RemoveDir | src/core/rollback_manager.py:106 | `rmdir` fails iff the folder is protected; otherwise only that folder disappears |
| Models.AllCategoryValues | src/core/models.py:12-26 | The thirteen category names, each at its enumeration position and pairwise distinct |
| Models.CategoryValuesDistinct | src/core/models.py:12-26 | Two categories have the same name iff they are the same category |

## Left out

- Image decoding, resizing and `convert('RGB')` in both extractors are library calls. The pixel arrays are parameters.
- `_rgb_to_lab` (advanced_extractor.py:143-189) is floating-point numerics with fractional powers. Lab pixels are a parameter.
- `extract_features` (advanced_extractor.py:294-351) only wires the modelled building blocks to the image loader. Per-file extraction is a function parameter of the engine.
- Floating point is modelled as exact `real`. float32 rounding, NaN and infinity are not modelled. The `merge_i == -1` break of the linkage loop (adaptive_clusterer.py:99-100) cannot arise over reals.
- `sqrt`, `exp` and `ln` are the `RealOps` parameter, constrained only by `Sound`.
- `np.random.seed`/`np.random.choice` are an index-permutation parameter, and `np.allclose` is a function parameter.
- NumPy's exceptions are modelled as a `Failure` result: a sample count below K, a zero-size argmin, division by zero for an empty histogram, and indexing an empty bin array.
- `FeatureWeights.normalize` has no source here. It is a function parameter, and `Calibrated` assumes only that it yields non-negative weights summing to 1.
- The ValueError of `compute_histogram_distance` for an unsupported metric cannot occur: `DistanceMetric` has exactly four values.
- The engine's setters (advanced_engine.py:58-69), the file-moving loop `_move_files`, scanning, timing and the progress callback are not modelled. So are `engine.py`, `scanner.py`, `preview_generator.py`, `progress_tracker.py` and the UI.
- HistogramAnalysis.SearchSorted: for a non-decreasing cumulative sum (any non-negative histogram) it agrees with NumPy's binary search. For a histogram with negative entries the two may differ.
- HistogramAnalysis.SingleBinStats requires only `sqrt(0) = 0` of the square root, which `Sound` implies.
- FeatureExtraction.ComputeLightnessStats requires a non-empty array: the image is never empty after resizing.
- FeatureExtraction.ComputeHistogram requires at least one bin: every caller passes a positive bin count.
- Rollback.UndoMoveCases requires that a source path is not its own parent. That holds for every file path.
- PathNames.Join does not normalise paths (".." and repeated separators).
- FileStore.MakeDir adds one folder and does not create missing parents. It does not model mkdir failures. Moving a folder moves its own entry only, not its contents.
- OSErrors other than a PermissionError on a protected path (a full disk, a cross-device move) are not modelled.
- The `records` and `created_folders` properties return copies. The model's sequences are values, so a copy is the field itself.
- AdaptiveClustering.AdaptiveClusterer.Cluster: the linkage method string is stored but ignored, as in the source. Only Ward linkage is modelled.
- AdaptiveClustering.AdaptiveClusterer.CutAtBestK and AdaptiveClustering.AdaptiveClusterer.Cluster state that the kept silhouette is the score of the cut at the chosen k only for non-negative distance matrices. With negative distances a score below the −1 start is never kept. Negative distances are outside the source's use.
- The reference colour table (extractor.py:66-79) is kept in declaration order with integer RGB values. Python dictionary order is the same.
