/**
 * The threshold bar of lib/utils/threshold-visualization.ts: a biomarker's
 * reference bands drawn as coloured segments, the current status widened,
 * and a dot placed where the latest value falls. Numbers are reals; the
 * widths are the whole Tailwind width steps the code uses.
 */
module ThresholdViz {
  import opened Common

  datatype BandStatus = Optimal | Borderline | OutOfRange

  /** A reference band `[min, max)`; an absent bound is open on that side. */
  datatype ThresholdBand = ThresholdBand(min: Option<real>, max: Option<real>, status: BandStatus)

  datatype Segment = Segment(status: BandStatus, width: nat, bgColor: string, borderColor: string, bandIndex: nat)

  datatype VisualizationConfig = VisualizationConfig(
    segments: seq<Segment>,
    dotPosition: Option<real>,
    isBidirectional: bool)

  /** Out of range at both ends: the first and the last of at least two bands. */
  function IsBidirectional(bands: seq<ThresholdBand>): (r: bool)
    ensures r ==> exists i, j | 0 <= i < j < |bands| ::
      bands[i].status == OutOfRange && bands[j].status == OutOfRange
    ensures |bands| < 2 ==> !r
  {
    |bands| >= 2 && bands[0].status == OutOfRange && bands[|bands| - 1].status == OutOfRange
  }

  /** The Tailwind hue of a status. */
  function StatusHue(status: BandStatus): string
  {
    match status
    case Optimal => "emerald"
    case Borderline => "amber"
    case OutOfRange => "fuchsia"
  }

  /** The background and border classes of a status: the light and the strong shade of its hue. */
  function StatusColors(status: BandStatus): (r: (string, string))
    ensures r.0 == "bg-" + StatusHue(status) + "-50"
    ensures r.1 == "border-" + StatusHue(status) + "-500"
  {
    match status
    case Optimal => ("bg-emerald-50", "border-emerald-500")
    case Borderline => ("bg-amber-50", "border-amber-500")
    case OutOfRange => ("bg-fuchsia-50", "border-fuchsia-500")
  }

  /** Each status has its own colours. */
  lemma StatusColorsDistinct(s1: BandStatus, s2: BandStatus)
    ensures StatusColors(s1).0 == StatusColors(s2).0 <==> s1 == s2
    ensures StatusColors(s1).1 == StatusColors(s2).1 <==> s1 == s2
  {
  }

  /** `v` lies in the band: at least `min` when there is one, below `max` when there is one. */
  predicate InBand(v: real, b: ThresholdBand)
  {
    (b.min.None? || b.min.value <= v) && (b.max.None? || v < b.max.value)
  }

  /** The index of the first band from `i` on that holds `v`. */
  function FirstBandFrom(v: real, bands: seq<ThresholdBand>, i: nat): (r: Option<nat>)
    requires i <= |bands|
    ensures r.Some? ==>
      (i <= r.value < |bands| && InBand(v, bands[r.value])
       && forall j | i <= j < r.value :: !InBand(v, bands[j]))
    ensures r.None? ==> forall j | i <= j < |bands| :: !InBand(v, bands[j])
    decreases |bands| - i
  {
    if i == |bands| then None
    else if InBand(v, bands[i]) then Some(i)
    else FirstBandFrom(v, bands, i + 1)
  }

  /** The index of the first band that holds `v`, if any. */
  function FirstBand(v: real, bands: seq<ThresholdBand>): Option<nat>
  {
    FirstBandFrom(v, bands, 0)
  }

  /** The first band holding a value is determined by the properties `FirstBandFrom` promises. */
  lemma FirstBandUnique(v: real, bands: seq<ThresholdBand>, k: nat)
    requires k < |bands| && InBand(v, bands[k]) && forall j | 0 <= j < k :: !InBand(v, bands[j])
    ensures FirstBand(v, bands) == Some(k)
  {
  }

  /**
   * `findBandForValue`: the lowest-index band whose interval holds the
   * value, or none.
   */
  method FindBandForValue(value: real, bands: seq<ThresholdBand>) returns (r: Option<nat>)
    ensures r == FirstBand(value, bands)
  {
    var i := 0;
    while i < |bands|
      invariant 0 <= i <= |bands|
      invariant forall j | 0 <= j < i :: !InBand(value, bands[j])
    {
      var band := bands[i];
      var found := false;
      if band.min.None? && band.max.None? {
        found := true;
      } else if band.min.None? {
        found := value < band.max.value;
      } else if band.max.None? {
        found := value >= band.min.value;
      } else {
        found := value >= band.min.value && value < band.max.value;
      }
      if found {
        FirstBandUnique(value, bands, i);
        return Some(i);
      }
      i := i + 1;
    }
    return None;
  }

  function Clamp01(x: real): (r: real)
    ensures 0.0 <= r <= 1.0
    ensures 0.0 <= x <= 1.0 ==> r == x
  {
    if x < 0.0 then 0.0 else if x > 1.0 then 1.0 else x
  }

  /**
   * `calculatePositionInBand` for the band holding `v`: the clamped linear
   * position in a bounded band (0.5 when it is empty); an estimate against
   * `1.5 * max` in a left-open band and against `1.5 * min` (or 1 when that
   * is 0) in a right-open one; 0.5 in an unbounded band. In a left-open band
   * with `max = 0` the division yields -Infinity after `1 - ...`, so the
   * position is 0.
   */
  function PositionInBand(v: real, b: ThresholdBand): (r: real)
    requires InBand(v, b)
    ensures 0.0 <= r <= 1.0
    ensures b.min.Some? && b.max.Some? && b.max.value != b.min.value ==>
      r == (v - b.min.value) / (b.max.value - b.min.value)
  {
    if b.min.Some? && b.max.Some? then
      var range := b.max.value - b.min.value;
      if range == 0.0 then 0.5
      else
        RatioInUnit(v - b.min.value, range);
        Clamp01((v - b.min.value) / range)
    else if b.min.None? && b.max.Some? then
      var distanceFromMax := b.max.value - v;
      var scale := b.max.value * 1.5;
      if scale == 0.0 then 0.0 else Clamp01(1.0 - distanceFromMax / scale)
    else if b.max.None? && b.min.Some? then
      var distanceFromMin := v - b.min.value;
      var scale := if b.min.value * 1.5 == 0.0 then 1.0 else b.min.value * 1.5;
      Clamp01(distanceFromMin / scale)
    else 0.5
  }

  /** A part of a positive whole, no larger than it, is a ratio in [0, 1). */
  lemma RatioInUnit(part: real, whole: real)
    requires 0.0 <= part < whole
    ensures 0.0 <= part / whole < 1.0
  {
  }

  const CurrentStatusWidth: nat := 16
  const OtherStatusWidthOneDirection: nat := 8
  const OtherStatusWidthBidirectional: nat := 4

  /** The width of the segment of the current status: halved on mobile. */
  function CurrentWidth(isMobile: bool): (w: nat)
    ensures w == (if isMobile then 8 else 16)
  {
    if isMobile then CurrentStatusWidth / 2 else CurrentStatusWidth
  }

  /** The width of every other segment: narrower on a bidirectional bar, halved on mobile. */
  function OtherWidth(isMobile: bool, bidirectional: bool): (w: nat)
    ensures w == (if bidirectional then 4 else 8) / (if isMobile then 2 else 1)
    ensures 0 < w < CurrentWidth(isMobile)
  {
    var base := if bidirectional then OtherStatusWidthBidirectional else OtherStatusWidthOneDirection;
    if isMobile then base / 2 else base
  }

  /**
   * The width of band `i`'s segment. On a bidirectional bar an out-of-range
   * band is current only when it is the band holding the latest value;
   * otherwise a band is current when its status is the current status.
   */
  function SegmentWidth(
    bands: seq<ThresholdBand>, i: nat,
    currentStatus: Option<BandStatus>, latestValue: Option<real>, isMobile: bool)
    : (w: nat)
    requires i < |bands|
    ensures 0 < w <= CurrentWidth(isMobile)
  {
    var bidirectional := IsBidirectional(bands);
    if bidirectional && bands[i].status == OutOfRange then
      var isThisBandCurrent :=
        latestValue.Some? && currentStatus == Some(OutOfRange) && FirstBand(latestValue.value, bands) == Some(i);
      if isThisBandCurrent then CurrentWidth(isMobile) else OtherWidth(isMobile, bidirectional)
    else if currentStatus == Some(bands[i].status) then CurrentWidth(isMobile)
    else OtherWidth(isMobile, bidirectional)
  }

  /** The segment drawn for band `i`. */
  function SegmentFor(
    bands: seq<ThresholdBand>, i: nat,
    currentStatus: Option<BandStatus>, latestValue: Option<real>, isMobile: bool)
    : Segment
    requires i < |bands|
  {
    var colors := StatusColors(bands[i].status);
    Segment(bands[i].status, SegmentWidth(bands, i, currentStatus, latestValue, isMobile), colors.0, colors.1, i)
  }

  /** The sum of the widths of the segments. */
  function TotalWidth(segments: seq<Segment>): nat
  {
    if |segments| == 0 then 0 else TotalWidth(segments[..|segments| - 1]) + segments[|segments| - 1].width
  }

  /** `segments.findIndex(seg => seg.bandIndex === bandIndex)`, with -1 as none. */
  function FindSegment(segments: seq<Segment>, bandIndex: nat): (r: int)
    ensures -1 <= r < |segments|
    ensures r >= 0 ==> segments[r].bandIndex == bandIndex && forall j | 0 <= j < r :: segments[j].bandIndex != bandIndex
    ensures r == -1 ==> forall j | 0 <= j < |segments| :: segments[j].bandIndex != bandIndex
  {
    if |segments| == 0 then -1
    else
      var init := FindSegment(segments[..|segments| - 1], bandIndex);
      if init >= 0 then init
      else if segments[|segments| - 1].bandIndex == bandIndex then |segments| - 1
      else -1
  }

  /** Segments numbered in order are found at their own index. */
  lemma FindSegmentNumbered(segments: seq<Segment>, k: nat)
    requires k < |segments| && forall j | 0 <= j < |segments| :: segments[j].bandIndex == j
    ensures FindSegment(segments, k) == k
  {
  }

  function Clamp100(x: real): (r: real)
    ensures 0.0 <= r <= 100.0
    ensures 0.0 <= x <= 100.0 ==> r == x
  {
    if x < 0.0 then 0.0 else if x > 100.0 then 100.0 else x
  }

  /** Where the dot goes, from the segment's start and width as percentages and the position in its band. */
  function DotPercent(accumulated: nat, width: nat, total: nat, position: real): real
    requires total > 0
  {
    var segmentStartPercent := (accumulated as real / total as real) * 100.0;
    var segmentWidthPercent := (width as real / total as real) * 100.0;
    Clamp100(segmentStartPercent + position * segmentWidthPercent)
  }

  /**
   * The dot: none without a value or when no band holds it; otherwise the
   * position in its band mapped onto that band's segment, as a percentage
   * of the whole bar.
   */
  function DotPosition(bands: seq<ThresholdBand>, segments: seq<Segment>, latestValue: Option<real>): (r: Option<real>)
    ensures r.Some? ==> 0.0 <= r.value <= 100.0
    ensures latestValue.None? || FirstBand(latestValue.value, bands).None? ==> r.None?
  {
    if latestValue.None? then None
    else
      match FirstBand(latestValue.value, bands)
      case None => None
      case Some(bandIndex) =>
        var segmentIndex := FindSegment(segments, bandIndex);
        if segmentIndex == -1 then None
        else
          var positionInBand := PositionInBand(latestValue.value, bands[bandIndex]);
          var total := TotalWidth(segments);
          if total == 0 then None
          else Some(DotPercent(TotalWidth(segments[..segmentIndex]), segments[segmentIndex].width, total, positionInBand))
  }

  /** The widths before a segment, plus its own, do not exceed the total. */
  lemma {:induction false} PrefixWidth(segments: seq<Segment>, k: nat)
    requires k < |segments|
    ensures TotalWidth(segments[..k]) + segments[k].width <= TotalWidth(segments)
    decreases |segments|
  {
    var n := |segments| - 1;
    if k < n {
      PrefixWidth(segments[..n], k);
      assert segments[..n][..k] == segments[..k];
    } else {
      assert segments[..k] == segments[..n];
    }
  }

  lemma DivAdd(a: real, w: real, t: real)
    requires t > 0.0
    ensures a / t + w / t == (a + w) / t
  {
  }

  lemma DivAtMostOne(x: real, t: real)
    requires 0.0 <= x <= t && t > 0.0
    ensures 0.0 <= x / t <= 1.0
  {
  }

  lemma ScaleWithin(p: real, s: real)
    requires 0.0 <= p <= 1.0 && s >= 0.0
    ensures 0.0 <= p * s <= s
  {
  }

  /**
   * The dot lies inside its band's segment: between the segment's start and
   * its end, both as percentages of the bar (the clamp to [0, 100] never
   * moves it).
   */
  lemma DotInsideSegment(accumulated: nat, width: nat, total: nat, position: real)
    requires accumulated + width <= total && total > 0 && 0.0 <= position <= 1.0
    ensures var start := (accumulated as real / total as real) * 100.0;
      var end := ((accumulated + width) as real / total as real) * 100.0;
      start <= DotPercent(accumulated, width, total, position) <= end
  {
    var a := accumulated as real;
    var w := width as real;
    var t := total as real;
    DivAdd(a, w, t);
    DivAtMostOne(a, t);
    DivAtMostOne(w, t);
    DivAtMostOne(a + w, t);
    var start := (a / t) * 100.0;
    var span := (w / t) * 100.0;
    ScaleWithin(position, span);
    assert start + span == ((a + w) / t) * 100.0;
    assert (accumulated + width) as real == a + w;
    assert 0.0 <= start && start + span <= 100.0;
    var ps := position * span;
    assert 0.0 <= ps <= span;
    var x := start + ps;
    assert x <= start + span;
    assert 0.0 <= x <= 100.0;
    assert DotPercent(accumulated, width, total, position) == x;
  }

  /**
   * `calculateThresholdVisualization`: one segment per band, in band order,
   * and the dot on the segment of the band holding the latest value.
   */
  method CalculateThresholdVisualization(
    bands: seq<ThresholdBand>,
    currentStatus: Option<BandStatus>,
    latestValue: Option<real>,
    isMobile: bool)
    returns (config: VisualizationConfig)
    ensures config.isBidirectional == IsBidirectional(bands)
    ensures |config.segments| == |bands|
    ensures forall i | 0 <= i < |bands| :: config.segments[i] == SegmentFor(bands, i, currentStatus, latestValue, isMobile)
    ensures config.dotPosition == DotPosition(bands, config.segments, latestValue)
  {
    var bidirectional := IsBidirectional(bands);
    var currentWidth := CurrentWidth(isMobile);
    var otherWidth := OtherWidth(isMobile, bidirectional);
    var segments: seq<Segment> := [];
    var i := 0;
    while i < |bands|
      invariant 0 <= i <= |bands|
      invariant |segments| == i
      invariant forall j | 0 <= j < i :: segments[j] == SegmentFor(bands, j, currentStatus, latestValue, isMobile)
    {
      var band := bands[i];
      var isCurrentStatus := currentStatus == Some(band.status);
      var segmentWidth: nat;
      if bidirectional && band.status == OutOfRange {
        var isThisBandCurrent := false;
        if latestValue.Some? && currentStatus == Some(OutOfRange) {
          var valueBandResult := FindBandForValue(latestValue.value, bands);
          if valueBandResult == Some(i) {
            isThisBandCurrent := true;
          }
        }
        segmentWidth := if isThisBandCurrent then currentWidth else otherWidth;
      } else {
        segmentWidth := if isCurrentStatus then currentWidth else otherWidth;
      }
      var colors := StatusColors(band.status);
      segments := segments + [Segment(band.status, segmentWidth, colors.0, colors.1, i)];
      i := i + 1;
    }
    config := VisualizationConfig(segments, DotPosition(bands, segments, latestValue), bidirectional);
  }

  /** On a bidirectional bar an out-of-range segment is widened only for the band holding the latest value. */
  lemma BidirectionalCurrentIsHoldingBand(
    bands: seq<ThresholdBand>, i: nat,
    currentStatus: Option<BandStatus>, latestValue: Option<real>, isMobile: bool)
    requires i < |bands| && IsBidirectional(bands) && bands[i].status == OutOfRange
    requires SegmentWidth(bands, i, currentStatus, latestValue, isMobile) == CurrentWidth(isMobile)
    ensures latestValue.Some? && currentStatus == Some(OutOfRange)
    ensures FirstBand(latestValue.value, bands) == Some(i)
  {
  }

  /**
   * With the segments the bar draws, a value held by some band always gets
   * a dot, and it lies within that band's segment.
   */
  lemma {:induction false} DotOnHoldingSegment(
    bands: seq<ThresholdBand>, currentStatus: Option<BandStatus>, latestValue: real, isMobile: bool,
    segments: seq<Segment>)
    requires |segments| == |bands|
    requires forall i | 0 <= i < |bands| :: segments[i] == SegmentFor(bands, i, currentStatus, Some(latestValue), isMobile)
    requires FirstBand(latestValue, bands).Some?
    ensures var k := FirstBand(latestValue, bands).value;
      var d := DotPosition(bands, segments, Some(latestValue));
      d.Some?
      && (TotalWidth(segments[..k]) as real / TotalWidth(segments) as real) * 100.0 <= d.value
      && d.value <= ((TotalWidth(segments[..k]) + segments[k].width) as real / TotalWidth(segments) as real) * 100.0
  {
    var k := FirstBand(latestValue, bands).value;
    assert forall j | 0 <= j < |segments| :: segments[j].bandIndex == j;
    FindSegmentNumbered(segments, k);
    PrefixWidth(segments, k);
    assert segments[k] == SegmentFor(bands, k, currentStatus, Some(latestValue), isMobile);
    var position := PositionInBand(latestValue, bands[k]);
    DotInsideSegment(TotalWidth(segments[..k]), segments[k].width, TotalWidth(segments), position);
  }
}
