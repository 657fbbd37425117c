/**
 * Naming of clusters: the majority tonal class, the dominant hue family
 * and the average saturation level of a cluster, joined into one Chinese
 * name such as "高调暖色鲜艳", and the numbering that makes the names of all
 * clusters distinct.
 */
module CategoryNaming {
  import opened Models
  import opened RealMath
  import opened Text
  import opened SeqUtil

  // ---------------------------------------------------------------------
  // Hue families over the 180 bins of the hue channel

  /** An inclusive range of hue bins. */
  datatype BinRange = BinRange(start: nat, end: nat)

  /** Red, orange and yellow. */
  const WarmHueRanges: seq<BinRange> := [BinRange(0, 35), BinRange(170, 179)]
  /** Cyan, blue and purple. */
  const CoolHueRanges: seq<BinRange> := [BinRange(78, 160)]
  /** Green and magenta. */
  const NeutralHueRanges: seq<BinRange> := [BinRange(36, 77), BinRange(161, 169)]

  const VividSaturationThreshold: real := 150.0
  const ModerateSaturationThreshold: real := 80.0
  const NeutralSaturationThreshold: real := 30.0

  /** Below this total weight a cluster counts as colourless. */
  const ChromaticMassThreshold: real := 0.1

  const Unclassified: string := "未分类"

  predicate InRanges(rs: seq<BinRange>, b: int)
  {
    exists i :: 0 <= i < |rs| && rs[i].start <= b <= rs[i].end
  }

  /** Every bin 0..179 lies in exactly one family, and no other bin lies in any. */
  lemma HueRangesPartition(b: int)
    ensures InRanges(WarmHueRanges, b) || InRanges(CoolHueRanges, b) || InRanges(NeutralHueRanges, b) <==> 0 <= b < 180
    ensures !(InRanges(WarmHueRanges, b) && InRanges(CoolHueRanges, b))
    ensures !(InRanges(WarmHueRanges, b) && InRanges(NeutralHueRanges, b))
    ensures !(InRanges(CoolHueRanges, b) && InRanges(NeutralHueRanges, b))
  {
    if 0 <= b <= 35 {
      assert WarmHueRanges[0].start <= b <= WarmHueRanges[0].end;
    } else if 170 <= b <= 179 {
      assert WarmHueRanges[1].start <= b <= WarmHueRanges[1].end;
    } else if 78 <= b <= 160 {
      assert CoolHueRanges[0].start <= b <= CoolHueRanges[0].end;
    } else if 36 <= b <= 77 {
      assert NeutralHueRanges[0].start <= b <= NeutralHueRanges[0].end;
    } else if 161 <= b <= 169 {
      assert NeutralHueRanges[1].start <= b <= NeutralHueRanges[1].end;
    }
  }

  /** `np.sum(combined[start:end+1])`: the slice is cut off at the end of
      the histogram. */
  function RangeMass(combined: seq<real>, r: BinRange): real
  {
    var lo := if r.start < |combined| then r.start else |combined|;
    var hi := if r.end + 1 < |combined| then r.end + 1 else |combined|;
    if lo <= hi then Sum(combined[lo..hi]) else 0.0
  }

  /** The total weight of a family: its range masses added in order. */
  function RangesMass(combined: seq<real>, rs: seq<BinRange>): real
    decreases |rs|
  {
    if |rs| == 0 then 0.0
    else RangesMass(combined, rs[..|rs| - 1]) + RangeMass(combined, rs[|rs| - 1])
  }

  lemma SumSplit(s: seq<real>, i: nat, j: nat, k: nat)
    requires i <= j <= k <= |s|
    ensures Sum(s[i..k]) == Sum(s[i..j]) + Sum(s[j..k])
  {
    assert s[i..k] == s[i..j] + s[j..k];
    SumAppend(s[i..j], s[j..k]);
  }

  /** On a 180-bin histogram the three families share out the whole mass. */
  lemma FamilyMassesCoverHistogram(combined: seq<real>)
    requires |combined| == 180
    ensures RangesMass(combined, WarmHueRanges) + RangesMass(combined, CoolHueRanges)
            + RangesMass(combined, NeutralHueRanges) == Sum(combined)
  {
    assert WarmHueRanges[..1] == [BinRange(0, 35)];
    assert NeutralHueRanges[..1] == [BinRange(36, 77)];
    assert CoolHueRanges[..0] == [];
    assert WarmHueRanges[..1][..0] == [];
    assert NeutralHueRanges[..1][..0] == [];
    SumSplit(combined, 0, 36, 180);
    SumSplit(combined, 36, 78, 180);
    SumSplit(combined, 78, 161, 180);
    SumSplit(combined, 161, 170, 180);
    assert combined[0..180] == combined;
  }

  /** All histograms of a list have the same number of bins. */
  predicate Uniform(hs: seq<seq<real>>)
  {
    forall i :: 0 <= i < |hs| ==> |hs[i]| == |hs[0]|
  }

  function Column(hs: seq<seq<real>>, j: nat): (col: seq<real>)
    requires Uniform(hs) && |hs| > 0 && j < |hs[0]|
    ensures |col| == |hs| && forall i :: 0 <= i < |hs| ==> col[i] == hs[i][j]
  {
    seq(|hs|, i requires 0 <= i < |hs| => hs[i][j])
  }

  /** `np.mean(hue_histograms, axis=0)`. */
  function ColumnMeans(hs: seq<seq<real>>): (combined: seq<real>)
    requires Uniform(hs) && |hs| > 0
    ensures |combined| == |hs[0]|
  {
    seq(|hs[0]|, j requires 0 <= j < |hs[0]| => Mean(Column(hs, j)))
  }

  /** Colourless below the mass threshold, otherwise the heaviest family,
      preferring warm, then cool, then neutral. */
  function HueDecision(warm: real, cool: real, neutral: real): HueCategory
  {
    var maxWeight := Max(Max(warm, cool), neutral);
    if maxWeight < ChromaticMassThreshold then NeutralHue
    else if warm == maxWeight then Warm
    else if cool == maxWeight then Cool
    else NeutralHue
  }

  /** Each outcome of the decision, as a condition on the three weights. */
  lemma HueDecisionCases(warm: real, cool: real, neutral: real)
    ensures HueDecision(warm, cool, neutral) == Warm <==>
      warm >= ChromaticMassThreshold && warm >= cool && warm >= neutral
    ensures HueDecision(warm, cool, neutral) == Cool <==>
      cool >= ChromaticMassThreshold && cool > warm && cool >= neutral
    ensures HueDecision(warm, cool, neutral) == NeutralHue <==>
      Max(Max(warm, cool), neutral) < ChromaticMassThreshold || (neutral > warm && neutral > cool)
  {
  }

  /** The dominant hue family of a cluster's hue histograms. */
  function DominantHue(hs: seq<seq<real>>): HueCategory
    requires Uniform(hs)
  {
    if |hs| == 0 then NeutralHue
    else
      var combined := ColumnMeans(hs);
      HueDecision(RangesMass(combined, WarmHueRanges), RangesMass(combined, CoolHueRanges),
                  RangesMass(combined, NeutralHueRanges))
  }

  method AnalyzeDominantHue(hueHistograms: seq<seq<real>>) returns (hue: HueCategory)
    requires Uniform(hueHistograms)
    ensures hue == DominantHue(hueHistograms)
  {
    if |hueHistograms| == 0 {
      return NeutralHue;
    }
    var combined := ColumnMeans(hueHistograms);
    var warmWeight, coolWeight, neutralWeight := 0.0, 0.0, 0.0;
    for t := 0 to |WarmHueRanges|
      invariant warmWeight == RangesMass(combined, WarmHueRanges[..t])
    {
      warmWeight := warmWeight + RangeMass(combined, WarmHueRanges[t]);
      assert WarmHueRanges[..t + 1][..t] == WarmHueRanges[..t];
    }
    for t := 0 to |CoolHueRanges|
      invariant coolWeight == RangesMass(combined, CoolHueRanges[..t])
    {
      coolWeight := coolWeight + RangeMass(combined, CoolHueRanges[t]);
      assert CoolHueRanges[..t + 1][..t] == CoolHueRanges[..t];
    }
    for t := 0 to |NeutralHueRanges|
      invariant neutralWeight == RangesMass(combined, NeutralHueRanges[..t])
    {
      neutralWeight := neutralWeight + RangeMass(combined, NeutralHueRanges[t]);
      assert NeutralHueRanges[..t + 1][..t] == NeutralHueRanges[..t];
    }
    assert WarmHueRanges[..|WarmHueRanges|] == WarmHueRanges;
    assert CoolHueRanges[..|CoolHueRanges|] == CoolHueRanges;
    assert NeutralHueRanges[..|NeutralHueRanges|] == NeutralHueRanges;
    var maxWeight := Max(Max(warmWeight, coolWeight), neutralWeight);
    if maxWeight < ChromaticMassThreshold {
      return NeutralHue;
    }
    if warmWeight == maxWeight {
      hue := Warm;
    } else if coolWeight == maxWeight {
      hue := Cool;
    } else {
      hue := NeutralHue;
    }
  }

  // ---------------------------------------------------------------------
  // Saturation

  /** Order of the saturation levels from grey to vivid. */
  function SaturationRank(s: SaturationLevel): nat
  {
    match s
    case NeutralSaturation => 0
    case Muted => 1
    case Moderate => 2
    case Vivid => 3
  }

  /** The level of the mean saturation; moderate when there is nothing to average. */
  function AnalyzeSaturation(saturationMeans: seq<real>): (level: SaturationLevel)
    ensures |saturationMeans| == 0 ==> level == Moderate
    ensures |saturationMeans| > 0 ==>
      (level == Vivid <==> Mean(saturationMeans) >= VividSaturationThreshold)
      && (level == Moderate <==> ModerateSaturationThreshold <= Mean(saturationMeans) < VividSaturationThreshold)
      && (level == Muted <==> NeutralSaturationThreshold <= Mean(saturationMeans) < ModerateSaturationThreshold)
      && (level == NeutralSaturation <==> Mean(saturationMeans) < NeutralSaturationThreshold)
  {
    if |saturationMeans| == 0 then Moderate
    else
      var avgSaturation := Mean(saturationMeans);
      if avgSaturation >= VividSaturationThreshold then Vivid
      else if avgSaturation >= ModerateSaturationThreshold then Moderate
      else if avgSaturation >= NeutralSaturationThreshold then Muted
      else NeutralSaturation
  }

  /** A higher mean saturation never gives a lower level. */
  lemma SaturationMonotone(a: seq<real>, b: seq<real>)
    requires |a| > 0 && |b| > 0 && Mean(a) <= Mean(b)
    ensures SaturationRank(AnalyzeSaturation(a)) <= SaturationRank(AnalyzeSaturation(b))
  {
  }

  // ---------------------------------------------------------------------
  // Tonal class

  /** The most frequent tonal class; on a tie high key beats middle key,
      which beats low key; middle key when the list is empty. */
  function DominantTonal(tonalClasses: seq<TonalClass>): TonalClass
  {
    if |tonalClasses| == 0 then MidKey
    else
      var high, mid, low := Count(tonalClasses, HighKey), Count(tonalClasses, MidKey), Count(tonalClasses, LowKey);
      if high >= mid && high >= low then HighKey
      else if mid >= low then MidKey
      else LowKey
  }

  lemma {:induction false} TonalCountsTotal(tonalClasses: seq<TonalClass>)
    ensures Count(tonalClasses, HighKey) + Count(tonalClasses, MidKey) + Count(tonalClasses, LowKey) == |tonalClasses|
    decreases |tonalClasses|
  {
    if |tonalClasses| > 0 {
      var last := tonalClasses[|tonalClasses| - 1];
      TonalCountsTotal(tonalClasses[..|tonalClasses| - 1]);
      assert last == HighKey || last == MidKey || last == LowKey;
    }
  }

  /** The dominant class occurs in the list, occurs at least as often as any
      other, and occurs strictly more often than every class it beats on a tie. */
  lemma DominantTonalIsMajority(tonalClasses: seq<TonalClass>)
    requires |tonalClasses| > 0
    ensures DominantTonal(tonalClasses) in tonalClasses
    ensures forall t :: Count(tonalClasses, t) <= Count(tonalClasses, DominantTonal(tonalClasses))
    ensures DominantTonal(tonalClasses) == MidKey ==> Count(tonalClasses, HighKey) < Count(tonalClasses, MidKey)
    ensures DominantTonal(tonalClasses) == LowKey ==>
      Count(tonalClasses, HighKey) < Count(tonalClasses, LowKey) && Count(tonalClasses, MidKey) < Count(tonalClasses, LowKey)
  {
    TonalCountsTotal(tonalClasses);
    CountPositive(tonalClasses, DominantTonal(tonalClasses));
    forall t
      ensures Count(tonalClasses, t) <= Count(tonalClasses, DominantTonal(tonalClasses))
    {
      assert t == HighKey || t == MidKey || t == LowKey;
    }
  }

  /** The keys of the count table, in insertion order. */
  const TonalOrder: seq<TonalClass> := [HighKey, MidKey, LowKey]

  method AnalyzeTonalClass(tonalClasses: seq<TonalClass>) returns (tonal: TonalClass)
    ensures tonal == DominantTonal(tonalClasses)
  {
    if |tonalClasses| == 0 {
      return MidKey;
    }
    var counts: map<TonalClass, nat> := map[HighKey := 0, MidKey := 0, LowKey := 0];
    for i := 0 to |tonalClasses|
      invariant HighKey in counts && counts[HighKey] == Count(tonalClasses[..i], HighKey)
      invariant MidKey in counts && counts[MidKey] == Count(tonalClasses[..i], MidKey)
      invariant LowKey in counts && counts[LowKey] == Count(tonalClasses[..i], LowKey)
    {
      var tc := tonalClasses[i];
      assert tc == HighKey || tc == MidKey || tc == LowKey;
      CountStep(tonalClasses, i, HighKey);
      CountStep(tonalClasses, i, MidKey);
      CountStep(tonalClasses, i, LowKey);
      counts := counts[tc := counts[tc] + 1];
    }
    assert tonalClasses[..|tonalClasses|] == tonalClasses;
    // max(counts, key=counts.get): the first key with the largest count
    tonal := TonalOrder[0];
    for k := 1 to |TonalOrder|
      invariant k == 1 ==> tonal == HighKey
      invariant k == 2 ==> tonal == if counts[HighKey] >= counts[MidKey] then HighKey else MidKey
      invariant k == 3 ==> tonal == DominantTonal(tonalClasses)
    {
      if counts[TonalOrder[k]] > counts[tonal] {
        tonal := TonalOrder[k];
      }
    }
  }

  // ---------------------------------------------------------------------
  // Names

  /** Tonal class, hue family and saturation level, in that order. */
  function ComposeName(tonal: TonalClass, hue: HueCategory, saturation: SaturationLevel): string
  {
    tonal.Label() + hue.Label() + saturation.Label()
  }

  /** A composed name gives back its three parts and is never "未分类". */
  lemma ComposeNameDecodes(tonal: TonalClass, hue: HueCategory, saturation: SaturationLevel)
    ensures |ComposeName(tonal, hue, saturation)| == 6
    ensures ComposeName(tonal, hue, saturation)[..2] == tonal.Label()
    ensures ComposeName(tonal, hue, saturation)[2..4] == hue.Label()
    ensures ComposeName(tonal, hue, saturation)[4..] == saturation.Label()
    ensures ComposeName(tonal, hue, saturation) != Unclassified
  {
  }

  lemma ComposeNameInjective(t1: TonalClass, h1: HueCategory, s1: SaturationLevel,
                             t2: TonalClass, h2: HueCategory, s2: SaturationLevel)
    ensures ComposeName(t1, h1, s1) == ComposeName(t2, h2, s2) <==> t1 == t2 && h1 == h2 && s1 == s2
  {
    ComposeNameDecodes(t1, h1, s1);
    ComposeNameDecodes(t2, h2, s2);
  }

  predicate UniformHues(features: seq<ImageFeatures>)
  {
    Uniform(HueHistograms(features))
  }

  function HueHistograms(features: seq<ImageFeatures>): (hs: seq<seq<real>>)
    ensures |hs| == |features| && forall i :: 0 <= i < |features| ==> hs[i] == features[i].hueHistogram
  {
    seq(|features|, i requires 0 <= i < |features| => features[i].hueHistogram)
  }

  function SaturationMeans(features: seq<ImageFeatures>): (ms: seq<real>)
    ensures |ms| == |features| && forall i :: 0 <= i < |features| ==> ms[i] == features[i].saturationMean
  {
    seq(|features|, i requires 0 <= i < |features| => features[i].saturationMean)
  }

  function TonalClasses(features: seq<ImageFeatures>): (ts: seq<TonalClass>)
    ensures |ts| == |features| && forall i :: 0 <= i < |features| ==> ts[i] == features[i].tonalClass
  {
    seq(|features|, i requires 0 <= i < |features| => features[i].tonalClass)
  }

  /** The name of a cluster. */
  function ClusterName(features: seq<ImageFeatures>): string
    requires UniformHues(features)
  {
    if |features| == 0 then Unclassified
    else ComposeName(DominantTonal(TonalClasses(features)), DominantHue(HueHistograms(features)),
                     AnalyzeSaturation(SaturationMeans(features)))
  }

  lemma ComposeNameHasNoUnderscore(tonal: TonalClass, hue: HueCategory, saturation: SaturationLevel)
    ensures '_' !in ComposeName(tonal, hue, saturation)
  {
    assert '_' !in tonal.Label() && '_' !in hue.Label() && '_' !in saturation.Label();
  }

  /** Cluster names never contain the separator of the numbering. */
  lemma ClusterNameHasNoUnderscore(features: seq<ImageFeatures>)
    requires UniformHues(features)
    ensures '_' !in ClusterName(features)
  {
    if |features| > 0 {
      var t, h, s := DominantTonal(TonalClasses(features)), DominantHue(HueHistograms(features)),
                     AnalyzeSaturation(SaturationMeans(features));
      ComposeNameHasNoUnderscore(t, h, s);
    }
  }

  method GenerateName(clusterFeatures: seq<ImageFeatures>) returns (name: string)
    requires UniformHues(clusterFeatures)
    ensures name == ClusterName(clusterFeatures)
  {
    if |clusterFeatures| == 0 {
      return Unclassified;
    }
    var hueHistograms := HueHistograms(clusterFeatures);
    var saturationMeans := SaturationMeans(clusterFeatures);
    var tonalClasses := TonalClasses(clusterFeatures);
    var tonal := AnalyzeTonalClass(tonalClasses);
    var hue := AnalyzeDominantHue(hueHistograms);
    var saturation := AnalyzeSaturation(saturationMeans);
    name := tonal.Label() + hue.Label() + saturation.Label();
  }

  /** The name together with the three parts it was made from; for an empty
      cluster "未分类" with middle key, neutral hue and moderate saturation. */
  method GenerateNameWithDetails(clusterFeatures: seq<ImageFeatures>)
    returns (name: string, tonal: TonalClass, hue: HueCategory, saturation: SaturationLevel)
    requires UniformHues(clusterFeatures)
    ensures name == ClusterName(clusterFeatures)
    ensures |clusterFeatures| == 0 ==> tonal == MidKey && hue == NeutralHue && saturation == Moderate
    ensures |clusterFeatures| > 0 ==>
      name == ComposeName(tonal, hue, saturation)
      && tonal == DominantTonal(TonalClasses(clusterFeatures))
      && hue == DominantHue(HueHistograms(clusterFeatures))
      && saturation == AnalyzeSaturation(SaturationMeans(clusterFeatures))
  {
    if |clusterFeatures| == 0 {
      return Unclassified, MidKey, NeutralHue, Moderate;
    }
    tonal := AnalyzeTonalClass(TonalClasses(clusterFeatures));
    hue := AnalyzeDominantHue(HueHistograms(clusterFeatures));
    saturation := AnalyzeSaturation(SaturationMeans(clusterFeatures));
    name := tonal.Label() + hue.Label() + saturation.Label();
  }

  // ---------------------------------------------------------------------
  // Distinct names

  function Suffixed(base: string, k: nat): string
  {
    base + "_" + NatToString(k)
  }

  /** First pass: the first occurrence of a base keeps it, the k-th
      (k >= 2) becomes `base_k`. */
  function FirstPassName(bases: seq<string>, i: nat): string
    requires i < |bases|
  {
    var before := Count(bases[..i], bases[i]);
    if before == 0 then bases[i] else Suffixed(bases[i], before + 1)
  }

  function FirstPass(bases: seq<string>): (names: seq<string>)
    ensures |names| == |bases|
  {
    seq(|bases|, i requires 0 <= i < |bases| => FirstPassName(bases, i))
  }

  /** Second pass: a base needs a number if it occurs more than once or some
      name starts with `base_`. */
  predicate NeedsNumber(names: seq<string>, base: string)
  {
    Count(names, base) > 1 || AnyStartsWith(names, base + "_")
  }

  /** `any(n.startswith(p) for n in names)`. */
  function AnyStartsWith(names: seq<string>, p: string): bool
    decreases |names|
  {
    if |names| == 0 then false
    else AnyStartsWith(names[..|names| - 1], p) || StartsWith(names[|names| - 1], p)
  }

  lemma {:induction false} AnyStartsWithWitness(names: seq<string>, p: string) returns (j: nat)
    requires AnyStartsWith(names, p)
    ensures j < |names| && StartsWith(names[j], p)
    decreases |names|
  {
    if StartsWith(names[|names| - 1], p) {
      j := |names| - 1;
    } else {
      j := AnyStartsWithWitness(names[..|names| - 1], p);
    }
  }

  lemma {:induction false} AnyStartsWithIntro(names: seq<string>, p: string, j: nat)
    requires j < |names| && StartsWith(names[j], p)
    ensures AnyStartsWith(names, p)
    decreases |names|
  {
    if j < |names| - 1 {
      AnyStartsWithIntro(names[..|names| - 1], p, j);
    }
  }

  /** How many of the first m names have the given base. */
  function HeadCount(names: seq<string>, m: nat, base: string): nat
    requires m <= |names|
    decreases m
  {
    if m == 0 then 0 else HeadCount(names, m - 1, base) + (if Head(names[m - 1]) == base then 1 else 0)
  }

  function FinalName(names: seq<string>, i: nat): string
    requires i < |names|
  {
    var base := Head(names[i]);
    if NeedsNumber(names, base) then Suffixed(base, HeadCount(names, i + 1, base)) else names[i]
  }

  function FinalNames(names: seq<string>): (finals: seq<string>)
    ensures |finals| == |names|
  {
    seq(|names|, i requires 0 <= i < |names| => FinalName(names, i))
  }

  predicate NoUnderscores(bases: seq<string>)
  {
    forall i :: 0 <= i < |bases| ==> '_' !in bases[i]
  }

  lemma SuffixedFacts(base: string, k: nat)
    requires '_' !in base
    ensures Head(Suffixed(base, k)) == base
    ensures '_' in Suffixed(base, k)
    ensures StartsWith(Suffixed(base, k), base + "_")
  {
    HeadOfSuffixed(base, NatToString(k));
    assert Suffixed(base, k)[|base|] == '_';
    assert Suffixed(base, k)[..|base| + 1] == base + "_";
  }

  lemma SuffixedEqual(b: string, k: nat, c: string, m: nat)
    requires '_' !in b && '_' !in c
    ensures Suffixed(b, k) == Suffixed(c, m) ==> b == c && k == m
  {
    if Suffixed(b, k) == Suffixed(c, m) {
      SuffixedInjective(b, NatToString(k), c, NatToString(m));
      NatToStringInjective(k, m);
    }
  }

  /** Every first-pass name splits back to its base, and carries a number
      exactly when the base occurred before. */
  lemma FirstPassHead(bases: seq<string>, i: nat)
    requires NoUnderscores(bases) && i < |bases|
    ensures Head(FirstPass(bases)[i]) == bases[i]
    ensures Count(bases[..i], bases[i]) == 0 ==> FirstPass(bases)[i] == bases[i]
    ensures Count(bases[..i], bases[i]) > 0 ==>
      FirstPass(bases)[i] == Suffixed(bases[i], Count(bases[..i], bases[i]) + 1)
  {
    SuffixedFacts(bases[i], Count(bases[..i], bases[i]) + 1);
  }

  /** After the first pass a base needs a number exactly when it occurs
      more than once. */
  lemma NeedsNumberIff(bases: seq<string>, i: nat)
    requires NoUnderscores(bases) && i < |bases|
    ensures NeedsNumber(FirstPass(bases), bases[i]) <==> Count(bases, bases[i]) > 1
  {
    var names, b := FirstPass(bases), bases[i];
    if Count(bases, b) > 1 {
      var j := LaterOccurrence(bases, b);
      FirstPassHead(bases, j);
      SuffixedFacts(b, Count(bases[..j], b) + 1);
      AnyStartsWithIntro(names, b + "_", j);
    }
    if Count(names, b) > 1 {
      var j := LaterOccurrence(names, b);
      CountPositive(names[..j], b);
      var k := Find(names[..j], b);
      FirstPassHead(bases, j);
      FirstPassHead(bases, k);
      TwoIndicesCount(bases, b, k, j);
    }
    if AnyStartsWith(names, b + "_") {
      var j := AnyStartsWithWitness(names, b + "_");
      FirstPassHead(bases, j);
      PlainPrefix(bases[j], b);
      SuffixedPrefix(bases[j], NatToString(Count(bases[..j], bases[j]) + 1), b);
      RepeatCount(bases, bases[j], j);
    }
  }

  /** The second pass numbers the names of a base by their rank among its occurrences. */
  lemma {:induction false} HeadCountIsRank(bases: seq<string>, m: nat, b: string)
    requires NoUnderscores(bases) && m <= |bases|
    ensures HeadCount(FirstPass(bases), m, b) == Count(bases[..m], b)
    decreases m
  {
    if m > 0 {
      HeadCountIsRank(bases, m - 1, b);
      FirstPassHead(bases, m - 1);
      CountStep(bases, m - 1, b);
    }
  }

  /** The outcome of both passes: a base occurring once is kept, the k-th of
      several occurrences becomes `base_k`. */
  lemma FinalNameShape(bases: seq<string>, i: nat)
    requires NoUnderscores(bases) && i < |bases|
    ensures FinalName(FirstPass(bases), i) ==
      if Count(bases, bases[i]) > 1 then Suffixed(bases[i], Count(bases[..i + 1], bases[i])) else bases[i]
  {
    FirstPassHead(bases, i);
    NeedsNumberIff(bases, i);
    HeadCountIsRank(bases, i + 1, bases[i]);
    RepeatCount(bases, bases[i], i);
  }

  /** The final names are pairwise distinct. */
  lemma FinalNamesDistinct(bases: seq<string>, i: nat, j: nat)
    requires NoUnderscores(bases) && i < j < |bases|
    ensures FinalName(FirstPass(bases), i) != FinalName(FirstPass(bases), j)
  {
    var bi, bj := bases[i], bases[j];
    FinalNameShape(bases, i);
    FinalNameShape(bases, j);
    TwoIndicesCount(bases, bi, i, j);
    var ri, rj := Count(bases[..i + 1], bi), Count(bases[..j + 1], bj);
    SuffixedFacts(bi, ri);
    SuffixedFacts(bj, rj);
    SuffixedEqual(bi, ri, bj, rj);
    CountPrefixMono(bases, i + 1, j, bi);
    CountStep(bases, j, bi);
  }

  function ClusterNames(allClusterFeatures: seq<seq<ImageFeatures>>): (bases: seq<string>)
    requires forall i :: 0 <= i < |allClusterFeatures| ==> UniformHues(allClusterFeatures[i])
    ensures |bases| == |allClusterFeatures|
  {
    seq(|allClusterFeatures|, i requires 0 <= i < |allClusterFeatures| => ClusterName(allClusterFeatures[i]))
  }

  /** `name_counts` after the first pass has seen the bases s: how often
      each base occurred, holding only the bases that did. */
  ghost predicate Tallies(counts: map<string, nat>, s: seq<string>)
  {
    forall b :: (b in counts <==> Count(s, b) > 0) && (b in counts ==> counts[b] == Count(s, b))
  }

  /** One step of the first pass: the i-th name and the updated counts. */
  lemma TalliesStep(counts: map<string, nat>, bases: seq<string>, i: nat)
    requires i < |bases| && Tallies(counts, bases[..i])
    ensures var b := bases[i];
      && Tallies(counts[b := if b in counts then counts[b] + 1 else 1], bases[..i + 1])
      && FirstPassName(bases, i) == if b in counts then Suffixed(b, counts[b] + 1) else b
  {
    forall b
      ensures Count(bases[..i + 1], b) == Count(bases[..i], b) + (if bases[i] == b then 1 else 0)
    {
      CountStep(bases, i, b);
    }
  }

  /** `seen` after the second pass has handled the first m names: for each
      base that needs a number, how many of its names came so far. */
  ghost predicate Numbering(seen: map<string, nat>, names: seq<string>, m: nat)
    requires m <= |names|
  {
    forall b ::
      && (b in seen ==> seen[b] == HeadCount(names, m, b) && seen[b] > 0 && NeedsNumber(names, b))
      && (b !in seen && NeedsNumber(names, b) ==> HeadCount(names, m, b) == 0)
  }

  /** One step of the second pass: the i-th final name and the updated map,
      for a base seen before, a base seen for the first time, and a base
      that needs no number. */
  lemma NumberingStep(seen: map<string, nat>, names: seq<string>, i: nat)
    requires i < |names| && Numbering(seen, names, i)
    ensures var b := Head(names[i]);
      NeedsNumber(names, b) && b in seen ==>
        && FinalName(names, i) == b + "_" + NatToString(seen[b] + 1)
        && Numbering(seen[b := seen[b] + 1], names, i + 1)
    ensures var b := Head(names[i]);
      NeedsNumber(names, b) && b !in seen ==>
        && FinalName(names, i) == b + "_1"
        && Numbering(seen[b := 1], names, i + 1)
    ensures !NeedsNumber(names, Head(names[i])) ==>
      FinalName(names, i) == names[i] && Numbering(seen, names, i + 1)
  {
    assert NatToString(1) == "1";
  }

  /** One name per cluster, in order, pairwise distinct: a name that occurs
      once is kept and the k-th cluster with a repeated name gets `name_k`. */
  method GenerateUniqueNames(allClusterFeatures: seq<seq<ImageFeatures>>) returns (finalNames: seq<string>)
    requires forall i :: 0 <= i < |allClusterFeatures| ==> UniformHues(allClusterFeatures[i])
    ensures finalNames == FinalNames(FirstPass(ClusterNames(allClusterFeatures)))
    ensures |finalNames| == |allClusterFeatures|
    ensures forall i :: 0 <= i < |finalNames| ==>
      var bases := ClusterNames(allClusterFeatures);
      finalNames[i] == if Count(bases, bases[i]) > 1 then Suffixed(bases[i], Count(bases[..i + 1], bases[i])) else bases[i]
    ensures forall i, j :: 0 <= i < j < |finalNames| ==> finalNames[i] != finalNames[j]
  {
    var names := NameClusters(allClusterFeatures);
    finalNames := NumberRepeatedNames(names);
    ghost var bases := ClusterNames(allClusterFeatures);
    forall i | 0 <= i < |bases|
      ensures '_' !in bases[i]
    {
      ClusterNameHasNoUnderscore(allClusterFeatures[i]);
    }
    UniqueNamesFacts(bases);
  }

  /** The first pass of GenerateUniqueNames. */
  method NameClusters(allClusterFeatures: seq<seq<ImageFeatures>>) returns (names: seq<string>)
    requires forall i :: 0 <= i < |allClusterFeatures| ==> UniformHues(allClusterFeatures[i])
    ensures names == FirstPass(ClusterNames(allClusterFeatures))
  {
    ghost var bases := ClusterNames(allClusterFeatures);
    ghost var target := FirstPass(bases);
    names := [];
    var nameCounts: map<string, nat> := map[];
    for i := 0 to |allClusterFeatures|
      invariant names == target[..i]
      invariant Tallies(nameCounts, bases[..i])
    {
      var baseName := GenerateName(allClusterFeatures[i]);
      assert baseName == bases[i];
      TalliesStep(nameCounts, bases, i);
      ghost var expected := FirstPassName(bases, i);
      var name;
      if baseName in nameCounts {
        nameCounts := nameCounts[baseName := nameCounts[baseName] + 1];
        name := baseName + "_" + NatToString(nameCounts[baseName]);
      } else {
        nameCounts := nameCounts[baseName := 1];
        name := baseName;
      }
      assert name == expected == target[i];
      PrefixStep(target, i);
      names := names + [name];
    }
    assert target[..|allClusterFeatures|] == target;
  }

  /** The second pass of GenerateUniqueNames. */
  method NumberRepeatedNames(names: seq<string>) returns (finalNames: seq<string>)
    ensures finalNames == FinalNames(names)
  {
    finalNames := [];
    var seen: map<string, nat> := map[];
    ghost var target := FinalNames(names);
    for i := 0 to |names|
      invariant finalNames == target[..i]
      invariant Numbering(seen, names, i)
    {
      var finalName;
      finalName, seen := NumberName(names, i, seen);
      PrefixStep(target, i);
      finalNames := finalNames + [finalName];
    }
    assert target[..|names|] == target;
  }

  /** One iteration of the second pass: the final name of names[i] and the
      updated `seen`. */
  method NumberName(names: seq<string>, i: nat, seen: map<string, nat>)
    returns (finalName: string, seen': map<string, nat>)
    requires i < |names| && Numbering(seen, names, i)
    ensures finalName == FinalName(names, i)
    ensures Numbering(seen', names, i + 1)
  {
    var name := names[i];
    var base := if '_' in name then Head(name) else name;
    assert base == Head(name);
    var needsNumber := Count(names, base) > 1 || AnyStartsWith(names, base + "_");
    NumberingStep(seen, names, i);
    seen' := seen;
    if needsNumber {
      if base !in seen {
        seen' := seen[base := 1];
        finalName := base + "_1";
      } else {
        seen' := seen[base := seen[base] + 1];
        finalName := base + "_" + NatToString(seen'[base]);
      }
    } else {
      finalName := name;
    }
  }

  /** Both passes together, on names without underscores: the shape of
      every result and their distinctness. */
  lemma UniqueNamesFacts(bases: seq<string>)
    requires NoUnderscores(bases)
    ensures forall i :: 0 <= i < |bases| ==>
      FinalNames(FirstPass(bases))[i] ==
        if Count(bases, bases[i]) > 1 then Suffixed(bases[i], Count(bases[..i + 1], bases[i])) else bases[i]
    ensures forall i, j :: 0 <= i < j < |bases| ==> FinalNames(FirstPass(bases))[i] != FinalNames(FirstPass(bases))[j]
  {
    forall i | 0 <= i < |bases|
      ensures FinalNames(FirstPass(bases))[i] ==
        if Count(bases, bases[i]) > 1 then Suffixed(bases[i], Count(bases[..i + 1], bases[i])) else bases[i]
    {
      FinalNameShape(bases, i);
    }
    forall i, j | 0 <= i < j < |bases|
      ensures FinalNames(FirstPass(bases))[i] != FinalNames(FirstPass(bases))[j]
    {
      FinalNamesDistinct(bases, i, j);
    }
  }
}
