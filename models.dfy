/**
 * The records and enumerations the colour-grouping pipeline passes around.
 *
 * ColorCategory, ColorInfo, ColorExtractionResult, MoveRecord and
 * RollbackResult follow src/core/models.py.  TonalClass, HueCategory, SaturationLevel,
 * DistanceMetric, ImageFeatures, FeatureWeights, LightnessStats,
 * DominantColor and ClusterInfo are imported from that module by the core
 * files but are not defined in it; they are declared here with the fields
 * and display strings the core files use.
 */
module Models {

  datatype Option<T> = None | Some(value: T)

  datatype Result<T, E> = Success(value: T) | Failure(error: E)
  {
    predicate IsFailure() { this.Failure? }
  }

  /** The tonal class of an image: bright, middle or dark. */
  datatype TonalClass = HighKey | MidKey | LowKey
  {
    function Label(): string
    {
      match this
      case HighKey => "高调"
      case MidKey => "中调"
      case LowKey => "低调"
    }
  }

  /** The dominant hue family of a cluster. */
  datatype HueCategory = Warm | Cool | NeutralHue
  {
    function Label(): string
    {
      match this
      case Warm => "暖色"
      case Cool => "冷色"
      case NeutralHue => "中性"
    }
  }

  /** How saturated a cluster is on average. */
  datatype SaturationLevel = Vivid | Moderate | Muted | NeutralSaturation
  {
    function Label(): string
    {
      match this
      case Vivid => "鲜艳"
      case Moderate => "适中"
      case Muted => "柔和"
      case NeutralSaturation => "中性"
    }
  }

  /** The four histogram comparisons the similarity calculator offers. */
  datatype DistanceMetric = Intersection | ChiSquare | Bhattacharyya | Correlation

  /** The thirteen colour folders of the simple mode, in declaration order. */
  datatype ColorCategory =
    | Red | Orange | Yellow | Green | Cyan | Blue | Purple | Pink | Brown
    | Black | White | Gray | Other
  {
    function Value(): string
    {
      match this
      case Red => "红色"
      case Orange => "橙色"
      case Yellow => "黄色"
      case Green => "绿色"
      case Cyan => "青色"
      case Blue => "蓝色"
      case Purple => "紫色"
      case Pink => "粉色"
      case Brown => "棕色"
      case Black => "黑色"
      case White => "白色"
      case Gray => "灰色"
      case Other => "其他"
    }

    /** Position in declaration order. */
    function Ordinal(): nat
    {
      match this
      case Red => 0 case Orange => 1 case Yellow => 2 case Green => 3
      case Cyan => 4 case Blue => 5 case Purple => 6 case Pink => 7
      case Brown => 8 case Black => 9 case White => 10 case Gray => 11
      case Other => 12
    }
  }

  /** Iterating over the ColorCategory enumeration. */
  function AllCategories(): (cs: seq<ColorCategory>)
    ensures |cs| == 13
    ensures forall c: ColorCategory :: c.Ordinal() < 13 && cs[c.Ordinal()] == c
  {
    [Red, Orange, Yellow, Green, Cyan, Blue, Purple, Pink, Brown, Black, White, Gray, Other]
  }

  /** Different categories have different folder names. */
  lemma CategoryValuesDistinct(c: ColorCategory, d: ColorCategory)
    ensures c.Value() == d.Value() <==> c == d
  {
  }

  /** The folder names of all categories, in enumeration order, without repeats. */
  function AllCategoryValues(): (vs: seq<string>)
    ensures |vs| == 13
    ensures forall i, j :: 0 <= i < j < |vs| ==> vs[i] != vs[j]
    ensures forall c: ColorCategory :: c.Ordinal() < 13 && vs[c.Ordinal()] == c.Value()
  {
    var cs := AllCategories();
    seq(|cs|, i requires 0 <= i < |cs| => cs[i].Value())
  }

  /** An sRGB triple with 8-bit channels. */
  datatype Rgb = Rgb(r: int, g: int, b: int)
  {
    ghost predicate Valid()
    {
      0 <= r <= 255 && 0 <= g <= 255 && 0 <= b <= 255
    }
  }

  /** One colour of the simple mode: its RGB value, its share of the image in
      percent, and the category value it falls into. */
  datatype ColorInfo = ColorInfo(rgb: Rgb, percentage: real, category: string)

  /** The colours found in one image and the category of the largest one. */
  datatype ColorExtractionResult = ColorExtractionResult(
    imagePath: string,
    colors: seq<ColorInfo>,
    dominantCategory: string)

  /** Mean, standard deviation and skewness of the lightness channel. */
  datatype LightnessStats = LightnessStats(mean: real, std: real, skewness: real)

  /** A dominant colour in L*a*b* and its share of the image in percent. */
  datatype DominantColor = DominantColor(l: real, a: real, b: real, percentage: real)

  /** Everything the advanced mode knows about one image. */
  datatype ImageFeatures = ImageFeatures(
    imagePath: string,
    hueHistogram: seq<real>,
    lightnessHistogram: seq<real>,
    saturationHistogram: seq<real>,
    dominantColors: seq<DominantColor>,
    tonalClass: TonalClass,
    lightnessStats: LightnessStats,
    saturationMean: real)

  /** The weights of the hue, lightness and saturation distances. */
  datatype FeatureWeights = FeatureWeights(hue: real, lightness: real, saturation: real)

  /** One group produced by the advanced mode. */
  datatype ClusterInfo = ClusterInfo(
    clusterId: int,
    name: string,
    imagePaths: seq<string>,
    tonalClass: TonalClass,
    hueCategory: HueCategory,
    saturationLevel: SaturationLevel,
    imageCount: nat)

  /** What the advanced mode reports (its wall-clock time and the records of
      moved files are not part of this model). */
  datatype AdvancedClassificationResult = AdvancedClassificationResult(
    clusters: seq<ClusterInfo>,
    nClusters: int,
    silhouetteScore: real,
    totalImages: nat)

  /** One file move, with the time it happened. */
  datatype MoveRecord = MoveRecord(sourcePath: string, destinationPath: string, timestamp: real)

  /** The outcome of undoing a batch of moves. */
  datatype RollbackResult = RollbackResult(successCount: nat, failedCount: nat, failedFiles: seq<string>)
}
