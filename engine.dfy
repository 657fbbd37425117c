/**
 * The advanced classification engine: it extracts the features of the
 * scanned images (skipping those that fail), falls back to a single group
 * when there are fewer than two of them, and otherwise clusters their
 * distance matrix and turns the labels into named cluster records.
 *
 * Scanning the source folder, the feature extractor itself and the moving
 * of files are not modelled: the scanned paths are an input and the
 * extractor is a function that either yields features or fails.
 */
module ClassificationEngine {
  import opened Models
  import opened RealMath
  import opened SeqUtil
  import opened CategoryNaming
  import opened SimilarityCalculation
  import opened AdaptiveClustering
  import ClusterSpec

  /** The name of the single group formed when clustering is impossible. */
  const AllImages: string := "全部图片"

  // ---------------------------------------------------------------------
  // Feature extraction over all images

  /** The features of the images whose extraction succeeded, in input
      order. */
  function Extracted(paths: seq<string>, extract: string -> Result<ImageFeatures, string>): seq<ImageFeatures>
    decreases |paths|
  {
    if |paths| == 0 then []
    else
      var r := extract(paths[|paths| - 1]);
      Extracted(paths[..|paths| - 1], extract) + (if r.Success? then [r.value] else [])
  }

  /** How many extractions fail. */
  function Failures(paths: seq<string>, extract: string -> Result<ImageFeatures, string>): nat
    decreases |paths|
  {
    if |paths| == 0 then 0
    else Failures(paths[..|paths| - 1], extract) + (if extract(paths[|paths| - 1]).Failure? then 1 else 0)
  }

  /** Every image yields features or is counted as skipped, so the features
      are exactly as many as the images that did not fail. */
  lemma {:induction false} ExtractedCount(paths: seq<string>, extract: string -> Result<ImageFeatures, string>)
    ensures |Extracted(paths, extract)| + Failures(paths, extract) == |paths|
    ensures |Extracted(paths, extract)| == |paths| <==> Failures(paths, extract) == 0
    decreases |paths|
  {
    if |paths| > 0 {
      ExtractedCount(paths[..|paths| - 1], extract);
    }
  }

  /** When no extraction fails, the features are those of the images, one
      for one and in order. */
  lemma {:induction false} ExtractedAll(paths: seq<string>, extract: string -> Result<ImageFeatures, string>)
    requires forall i :: 0 <= i < |paths| ==> extract(paths[i]).Success?
    ensures |Extracted(paths, extract)| == |paths|
    ensures forall i :: 0 <= i < |paths| ==> Extracted(paths, extract)[i] == extract(paths[i]).value
    decreases |paths|
  {
    if |paths| > 0 {
      ExtractedAll(paths[..|paths| - 1], extract);
    }
  }

  /** The number of bins of each histogram the extractor produces. */
  datatype Shape = Shape(hueBins: nat, lightnessBins: nat, saturationBins: nat)

  /** Features whose three histograms have the extractor's bin counts and
      no negative bin. */
  predicate HasShape(f: ImageFeatures, s: Shape)
  {
    && |f.hueHistogram| == s.hueBins > 0 && NonNegativeBins(f.hueHistogram)
    && |f.lightnessHistogram| == s.lightnessBins > 0 && NonNegativeBins(f.lightnessHistogram)
    && |f.saturationHistogram| == s.saturationBins > 0 && NonNegativeBins(f.saturationHistogram)
  }

  /** Every successful extraction of one of the paths has the shape. */
  predicate ShapedExtraction(paths: seq<string>, extract: string -> Result<ImageFeatures, string>, s: Shape)
  {
    forall i :: 0 <= i < |paths| && extract(paths[i]).Success? ==> HasShape(extract(paths[i]).value, s)
  }

  lemma {:induction false} ExtractedShaped(paths: seq<string>, extract: string -> Result<ImageFeatures, string>, s: Shape)
    requires ShapedExtraction(paths, extract, s)
    ensures forall k :: 0 <= k < |Extracted(paths, extract)| ==> HasShape(Extracted(paths, extract)[k], s)
    decreases |paths|
  {
    if |paths| > 0 {
      ExtractedShaped(paths[..|paths| - 1], extract, s);
    }
  }

  /** Features of one shape can be compared pairwise and have hue
      histograms of one length. */
  lemma ShapedFeatures(fs: seq<ImageFeatures>, s: Shape)
    requires forall k :: 0 <= k < |fs| ==> HasShape(fs[k], s)
    ensures forall i, j :: 0 <= i < j < |fs| ==> ComparableFeatures(fs[i], fs[j])
    ensures UniformHues(fs)
  {
  }

  // ---------------------------------------------------------------------
  // Cluster records

  /** `[f.image_path for f in fs]`. */
  function Paths(fs: seq<ImageFeatures>): (ps: seq<string>)
    ensures |ps| == |fs| && forall i :: 0 <= i < |fs| ==> ps[i] == fs[i].imagePath
  {
    seq(|fs|, i requires 0 <= i < |fs| => fs[i].imagePath)
  }

  /** `zip(features, labels)` stops at the shorter list. */
  function Zipped(fs: seq<ImageFeatures>, labels: seq<int>): nat
  {
    if |fs| < |labels| then |fs| else |labels|
  }

  /** The features among the first m pairs whose label is `label`. */
  function GroupUpTo(fs: seq<ImageFeatures>, labels: seq<int>, key: int, m: nat): seq<ImageFeatures>
    requires m <= |fs| && m <= |labels|
  {
    if m == 0 then []
    else GroupUpTo(fs, labels, key, m - 1) + (if labels[m - 1] == key then [fs[m - 1]] else [])
  }

  /** `[f for f, l in zip(features, labels) if l == label]`. */
  function Group(fs: seq<ImageFeatures>, labels: seq<int>, key: int): seq<ImageFeatures>
  {
    GroupUpTo(fs, labels, key, Zipped(fs, labels))
  }

  /** The groups of all distinct labels, in ascending label order. */
  function Groups(fs: seq<ImageFeatures>, labels: seq<int>): (gs: seq<seq<ImageFeatures>>)
    ensures |gs| == |Unique(labels)|
    ensures forall i :: 0 <= i < |gs| ==> gs[i] == Group(fs, labels, Unique(labels)[i])
  {
    var u := Unique(labels);
    seq(|u|, i requires 0 <= i < |u| => Group(fs, labels, u[i]))
  }

  /** A group only holds features of the list. */
  lemma {:induction false} GroupUpToMembers(fs: seq<ImageFeatures>, labels: seq<int>, key: int, m: nat)
    requires m <= |fs| && m <= |labels|
    ensures forall g :: g in GroupUpTo(fs, labels, key, m) ==> g in fs
  {
    if m > 0 {
      GroupUpToMembers(fs, labels, key, m - 1);
    }
  }

  /** Groups of features with hue histograms of one length have that
      property too. */
  lemma GroupsUniform(fs: seq<ImageFeatures>, labels: seq<int>)
    requires UniformHues(fs)
    ensures forall i :: 0 <= i < |Groups(fs, labels)| ==> UniformHues(Groups(fs, labels)[i])
  {
    var gs := Groups(fs, labels);
    forall i | 0 <= i < |gs|
      ensures UniformHues(gs[i])
    {
      GroupUpToMembers(fs, labels, Unique(labels)[i], Zipped(fs, labels));
      forall k | 0 <= k < |gs[i]|
        ensures |gs[i][k].hueHistogram| == |fs[0].hueHistogram|
      {
        assert gs[i][k] in fs;
      }
    }
  }

  /** The sizes of the groups (over the first m pairs) of the labels us. */
  function SizesUpTo(fs: seq<ImageFeatures>, labels: seq<int>, us: seq<int>, m: nat): nat
    requires m <= |fs| && m <= |labels|
    decreases |us|
  {
    if |us| == 0 then 0
    else SizesUpTo(fs, labels, us[..|us| - 1], m) + |GroupUpTo(fs, labels, us[|us| - 1], m)|
  }

  lemma {:induction false} SizesNone(fs: seq<ImageFeatures>, labels: seq<int>, us: seq<int>)
    ensures SizesUpTo(fs, labels, us, 0) == 0
    decreases |us|
  {
    if |us| > 0 {
      SizesNone(fs, labels, us[..|us| - 1]);
    }
  }

  /** One more pair adds its feature to the group of every copy of its
      label among us. */
  lemma {:induction false} SizesStep(fs: seq<ImageFeatures>, labels: seq<int>, us: seq<int>, m: nat)
    requires m < |fs| && m < |labels|
    ensures SizesUpTo(fs, labels, us, m + 1) == SizesUpTo(fs, labels, us, m) + Count(us, labels[m])
    decreases |us|
  {
    if |us| > 0 {
      SizesStep(fs, labels, us[..|us| - 1], m);
    }
  }

  /** A strictly increasing list holds each value at most once. */
  lemma {:induction false} CountIncreasing(us: seq<int>, x: int)
    requires StrictlyIncreasing(us)
    ensures Count(us, x) == if x in us then 1 else 0
    decreases |us|
  {
    if |us| > 0 {
      var init := us[..|us| - 1];
      CountIncreasing(init, x);
      assert us == init + [us[|us| - 1]];
      if x == us[|us| - 1] {
        assert x !in init;
      }
    }
  }

  /** The groups of distinct labels covering every label of the first m
      pairs hold m features together. */
  lemma {:induction false} SizesTotal(fs: seq<ImageFeatures>, labels: seq<int>, us: seq<int>, m: nat)
    requires m <= |fs| && m <= |labels| && StrictlyIncreasing(us)
    requires forall j :: 0 <= j < m ==> labels[j] in us
    ensures SizesUpTo(fs, labels, us, m) == m
    decreases m
  {
    if m == 0 {
      SizesNone(fs, labels, us);
    } else {
      var k := m - 1;
      assert SizesUpTo(fs, labels, us, k) == k by {
        SizesTotal(fs, labels, us, k);
      }
      assert Count(us, labels[k]) == 1 by {
        CountIncreasing(us, labels[k]);
      }
      SizesStep(fs, labels, us, k);
    }
  }

  /** The images counted by a list of cluster records. */
  function ImageTotal(clusters: seq<ClusterInfo>): nat
    decreases |clusters|
  {
    if |clusters| == 0 then 0
    else ImageTotal(clusters[..|clusters| - 1]) + clusters[|clusters| - 1].imageCount
  }

  lemma {:induction false} ImageTotalOfGroups(clusters: seq<ClusterInfo>, fs: seq<ImageFeatures>, labels: seq<int>,
                                              us: seq<int>)
    requires |clusters| == |us|
    requires forall i :: 0 <= i < |us| ==> clusters[i].imageCount == |Group(fs, labels, us[i])|
    ensures ImageTotal(clusters) == SizesUpTo(fs, labels, us, Zipped(fs, labels))
    decreases |us|
  {
    if |us| > 0 {
      var n := |us| - 1;
      ImageTotalOfGroups(clusters[..n], fs, labels, us[..n]);
    }
  }

  /** Record ids strictly increase and record names are pairwise distinct. */
  predicate DistinctRecords(clusters: seq<ClusterInfo>)
  {
    && (forall i, j :: 0 <= i < j < |clusters| ==> clusters[i].clusterId < clusters[j].clusterId)
    && (forall i, j :: 0 <= i < j < |clusters| ==> clusters[i].name != clusters[j].name)
  }

  /** The record of the group g of features labelled key: its id is the
      label, it lists the group's paths and their number, and it carries the
      group's dominant tonal class, hue family and saturation level (or the
      neutral ones for an empty group). */
  predicate Describes(c: ClusterInfo, key: int, g: seq<ImageFeatures>)
  {
    && c.clusterId == key
    && c.imagePaths == Paths(g)
    && c.imageCount == |g|
    && UniformHues(g)
    && (|g| == 0 ==> c.tonalClass == MidKey && c.hueCategory == NeutralHue && c.saturationLevel == Moderate)
    && (|g| > 0 ==>
          && c.tonalClass == DominantTonal(TonalClasses(g))
          && c.hueCategory == DominantHue(HueHistograms(g))
          && c.saturationLevel == AnalyzeSaturation(SaturationMeans(g)))
  }

  /** Records built from the groups of distinct labels, under pairwise
      distinct names, are distinct and together count every feature once
      when there is one label per feature. */
  lemma RecordsFacts(clusters: seq<ClusterInfo>, fs: seq<ImageFeatures>, labels: seq<int>, names: seq<string>)
    requires |clusters| == |Unique(labels)| == |names|
    requires forall i :: 0 <= i < |clusters| ==>
      Describes(clusters[i], Unique(labels)[i], Groups(fs, labels)[i]) && clusters[i].name == names[i]
    requires forall i, j :: 0 <= i < j < |names| ==> names[i] != names[j]
    ensures DistinctRecords(clusters)
    ensures |fs| == |labels| ==> ImageTotal(clusters) == |fs|
  {
    var us := Unique(labels);
    if |fs| == |labels| {
      ImageTotalOfGroups(clusters, fs, labels, us);
      SizesTotal(fs, labels, us, |fs|);
    }
  }

  /** The record formed when fewer than two images have features. */
  function WholeCluster(fs: seq<ImageFeatures>): ClusterInfo
  {
    ClusterInfo(0, AllImages, Paths(fs), if |fs| > 0 then fs[0].tonalClass else MidKey, NeutralHue, Moderate, |fs|)
  }

  /** The engine and the components it delegates to. */
  class Engine {
    const calculator: SimilarityCalculator
    const clusterer: AdaptiveClusterer
    const ops: RealOps

    constructor (calculator: SimilarityCalculator, clusterer: AdaptiveClusterer, ops: RealOps)
      ensures this.calculator == calculator && this.clusterer == clusterer && this.ops == ops
    {
      this.calculator := calculator;
      this.clusterer := clusterer;
      this.ops := ops;
    }

    /** `extract_all_features`: an image whose extraction raises is skipped. */
    method ExtractAllFeatures(imagePaths: seq<string>, extract: string -> Result<ImageFeatures, string>)
      returns (features: seq<ImageFeatures>)
      ensures features == Extracted(imagePaths, extract)
      ensures |features| + Failures(imagePaths, extract) == |imagePaths|
    {
      features := [];
      for i := 0 to |imagePaths|
        invariant features == Extracted(imagePaths[..i], extract)
      {
        assert imagePaths[..i + 1][..i] == imagePaths[..i];
        var feat := extract(imagePaths[i]);
        if feat.Success? {
          features := features + [feat.value];
        }
      }
      assert imagePaths[..|imagePaths|] == imagePaths;
      ExtractedCount(imagePaths, extract);
    }

    /** The second loop of `_build_cluster_info`: the record of each group
        under its label and its de-duplicated name. */
    method DescribeGroups(uniqueLabels: seq<int>, groups: seq<seq<ImageFeatures>>, names: seq<string>)
      returns (clusters: seq<ClusterInfo>)
      requires |uniqueLabels| == |groups| == |names|
      requires forall i :: 0 <= i < |groups| ==> UniformHues(groups[i])
      ensures |clusters| == |groups|
      ensures forall i :: 0 <= i < |clusters| ==>
        Describes(clusters[i], uniqueLabels[i], groups[i]) && clusters[i].name == names[i]
    {
      clusters := [];
      for i := 0 to |uniqueLabels|
        invariant |clusters| == i
        invariant forall j :: 0 <= j < i ==>
          Describes(clusters[j], uniqueLabels[j], groups[j]) && clusters[j].name == names[j]
      {
        var info := DescribeGroup(uniqueLabels[i], groups[i], names[i]);
        ghost var before := clusters;
        clusters := clusters + [info];
        forall j | 0 <= j < i + 1
          ensures Describes(clusters[j], uniqueLabels[j], groups[j]) && clusters[j].name == names[j]
        {
          if j < i {
            assert clusters[j] == before[j];
          }
        }
      }
    }

    /** One iteration of that loop: the record of one group. */
    method DescribeGroup(key: int, clusterFeatures: seq<ImageFeatures>, name: string) returns (info: ClusterInfo)
      requires UniformHues(clusterFeatures)
      ensures Describes(info, key, clusterFeatures) && info.name == name
    {
      var _, tonal, hue, saturation := GenerateNameWithDetails(clusterFeatures);
      info := ClusterInfo(key, name, Paths(clusterFeatures), tonal, hue, saturation, |clusterFeatures|);
    }

    /** `_build_cluster_info`: one record per distinct label in ascending
        order, holding the paths of the features with that label, their
        number, the de-duplicated name and the components of the group's
        own name. */
    method BuildClusterInfo(features: seq<ImageFeatures>, labels: seq<int>) returns (clusters: seq<ClusterInfo>)
      requires UniformHues(features)
      ensures |clusters| == |Unique(labels)|
      ensures forall i :: 0 <= i < |clusters| ==>
        Describes(clusters[i], Unique(labels)[i], Groups(features, labels)[i])
      ensures forall i :: 0 <= i < |Groups(features, labels)| ==> UniformHues(Groups(features, labels)[i])
      ensures forall i :: 0 <= i < |clusters| ==>
        clusters[i].name == FinalNames(FirstPass(ClusterNames(Groups(features, labels))))[i]
      ensures DistinctRecords(clusters)
      ensures |features| == |labels| ==> ImageTotal(clusters) == |features|
    {
      var uniqueLabels := Unique(labels);
      ghost var groups := Groups(features, labels);
      var allClusterFeatures: seq<seq<ImageFeatures>> := [];
      for k := 0 to |uniqueLabels|
        invariant allClusterFeatures == groups[..k]
      {
        var clusterFeatures := Group(features, labels, uniqueLabels[k]);
        allClusterFeatures := allClusterFeatures + [clusterFeatures];
      }
      assert allClusterFeatures == groups;
      GroupsUniform(features, labels);
      var names := GenerateUniqueNames(allClusterFeatures);
      clusters := DescribeGroups(uniqueLabels, allClusterFeatures, names);
      RecordsFacts(clusters, features, labels, names);
    }

    /** `classify` from the scanned paths on: no images give no clusters;
        fewer than two extracted features give one group of all of them;
        otherwise the features' distance matrix is clustered and the labels
        become records. */
    method Classify(imagePaths: seq<string>, extract: string -> Result<ImageFeatures, string>,
                    nClusters: Option<int>, shape: Shape)
      returns (result: AdvancedClassificationResult)
      requires Sound(ops) && ShapedExtraction(imagePaths, extract, shape)
      ensures |imagePaths| == 0 ==> result == AdvancedClassificationResult([], 0, 0.0, 0)
      ensures |imagePaths| > 0 && |Extracted(imagePaths, extract)| < 2 ==>
        var fs := Extracted(imagePaths, extract);
        result == AdvancedClassificationResult([WholeCluster(fs)], 1, 0.0, |fs|)
      ensures |Extracted(imagePaths, extract)| >= 2 ==>
        var n := |Extracted(imagePaths, extract)|;
        && result.totalImages == n
        && result.nClusters >= 1
        && |result.clusters| == (if result.nClusters < n then result.nClusters else n)
        && ImageTotal(result.clusters) == n
        && DistinctRecords(result.clusters)
      ensures ImageTotal(result.clusters) == result.totalImages
    {
      if |imagePaths| == 0 {
        return AdvancedClassificationResult([], 0, 0.0, 0);
      }
      var features := ExtractAllFeatures(imagePaths, extract);
      ExtractedShaped(imagePaths, extract, shape);
      ShapedFeatures(features, shape);
      if |features| < 2 {
        var clusterInfo := WholeCluster(features);
        assert ImageTotal([clusterInfo]) == |features| by {
          assert [clusterInfo][..0] == [];
        }
        return AdvancedClassificationResult([clusterInfo], 1, 0.0, |features|);
      }
      var distanceMatrix := calculator.BuildDistanceMatrix(features);
      var clusterResult := clusterer.Cluster(distanceMatrix, nClusters, ops);
      var clusters := BuildClusterInfo(features, clusterResult.labels);
      result := AdvancedClassificationResult(clusters, clusterResult.nClusters, clusterResult.silhouetteScore,
                                             |features|);
    }
  }
}
