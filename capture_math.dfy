/**
 * The pure arithmetic of the capture controller (camera/CameraController.kt):
 * the device capabilities read at camera open, manual-exposure clamping, the
 * ISO split into sensor sensitivity and post-RAW boost, the exposure
 * compensation index, JPEG and EXIF orientation, the tap-to-focus metering
 * rectangle, the preview-size choice and the thumbnail sample size.
 * Camera2 types are replaced by plain records; Float values are exact reals.
 */
module CaptureMath {
  import opened Numerics

  const OutputFormatJpeg: int := 0
  const OutputFormatRaw: int := 2

  /** An android.util.Range: closed interval [lower, upper]. */
  datatype Range = Range(lower: int, upper: int)

  /** An android.util.Size / active-array rectangle: width x height. */
  datatype Size = Size(width: int, height: int)

  /**
   * What the controller reads from the camera characteristics when the back
   * camera is opened; every range may be missing on a given device.
   */
  datatype Capabilities = Capabilities(
    sensorOrientation: int,
    isoRange: Option<Range>,
    exposureTimeRange: Option<Range>,
    ecRange: Option<Range>,
    ecStep: real,
    maxAfRegions: int,
    maxAeRegions: int,
    supportsRaw: bool,
    activeArray: Option<Size>)

  /** The values the controller holds before any camera has been opened. */
  const InitialCapabilities: Capabilities :=
    Capabilities(0, None, None, None, 1.0, 0, 0, false, None)

  predicate RangeOk(r: Option<Range>)
  {
    r.Some? ==> r.value.lower <= r.value.upper
  }

  /**
   * What the camera framework guarantees of the characteristics: non-empty
   * ranges, positive ISO values and an active array of at least one pixel.
   */
  predicate WellFormed(c: Capabilities)
  {
    && RangeOk(c.isoRange) && RangeOk(c.exposureTimeRange) && RangeOk(c.ecRange)
    && (c.isoRange.Some? ==> c.isoRange.value.lower > 0)
    && (c.activeArray.Some? ==> c.activeArray.value.width >= 1 && c.activeArray.value.height >= 1)
  }

  lemma InitialCapabilitiesWellFormed()
    ensures WellFormed(InitialCapabilities)
  {
  }

  /** The formats offered once the camera is open: JPEG, then RAW when supported. */
  function AvailableFormats(supportsRaw: bool): (r: seq<int>)
    ensures |r| >= 1 && r[0] == OutputFormatJpeg
    ensures OutputFormatRaw in r <==> supportsRaw
    ensures forall i, j :: 0 <= i < j < |r| ==> r[i] != r[j]
  {
    if supportsRaw then [OutputFormatJpeg, OutputFormatRaw] else [OutputFormatJpeg]
  }

  // ---------------------------------------------------------------------
  // Manual exposure
  // ---------------------------------------------------------------------

  /** Lowest manual ISO: the sensor minimum, 100 when unknown. */
  function MinManualIso(c: Capabilities): int
  {
    if c.isoRange.Some? then c.isoRange.value.lower else 100
  }

  /** Sensor ISO ceiling used by the boost split: the sensor maximum, 1600 when unknown. */
  function MaxSensorIso(c: Capabilities): int
  {
    if c.isoRange.Some? then c.isoRange.value.upper else 1600
  }

  /** Highest manual ISO: 32 times the sensor maximum (the digital boost headroom). */
  function MaxManualIso(c: Capabilities): int
  {
    MaxSensorIso(c) * 32
  }

  function MinExposureNs(c: Capabilities): int
  {
    if c.exposureTimeRange.Some? then c.exposureTimeRange.value.lower else 1_000_000
  }

  function MaxExposureNs(c: Capabilities): int
  {
    if c.exposureTimeRange.Some? then c.exposureTimeRange.value.upper else 1_000_000_000
  }

  lemma ManualBoundsOrdered(c: Capabilities)
    requires WellFormed(c)
    ensures 0 < MinManualIso(c) <= MaxSensorIso(c) < MaxManualIso(c)
    ensures MinExposureNs(c) <= MaxExposureNs(c)
  {
  }

  /**
   * The ISO stored by setManualExposure: inside [MinManualIso, MaxManualIso],
   * unchanged when already inside, otherwise the nearer bound.
   */
  function ClampManualIso(c: Capabilities, iso: int): (r: int)
    requires WellFormed(c)
    ensures MinManualIso(c) <= r <= MaxManualIso(c)
    ensures MinManualIso(c) <= iso <= MaxManualIso(c) ==> r == iso
    ensures iso < MinManualIso(c) ==> r == MinManualIso(c)
    ensures iso > MaxManualIso(c) ==> r == MaxManualIso(c)
  {
    ManualBoundsOrdered(c);
    CoerceIn(iso, MinManualIso(c), MaxManualIso(c))
  }

  /** The exposure time stored by setManualExposure, clamped the same way. */
  function ClampExposureNs(c: Capabilities, ns: int): (r: int)
    requires WellFormed(c)
    ensures MinExposureNs(c) <= r <= MaxExposureNs(c)
    ensures MinExposureNs(c) <= ns <= MaxExposureNs(c) ==> r == ns
    ensures ns < MinExposureNs(c) ==> r == MinExposureNs(c)
    ensures ns > MaxExposureNs(c) ==> r == MaxExposureNs(c)
  {
    ManualBoundsOrdered(c);
    CoerceIn(ns, MinExposureNs(c), MaxExposureNs(c))
  }

  // ---------------------------------------------------------------------
  // ISO split: sensor sensitivity plus post-RAW sensitivity boost
  // ---------------------------------------------------------------------

  /** The two request values: sensor sensitivity and boost in percent. */
  datatype SensorIso = SensorIso(sensitivity: int, boost: int)

  const MaxBoost: int := 3199

  /**
   * A requested ISO the sensor reaches is sent as is with a neutral 100 %
   * boost; a higher one runs the sensor at its maximum and makes up the rest
   * with a boost of floor(100 * iso / max), capped at 3199 %. The boost never
   * overshoots the request, and unless capped it falls short by less than
   * one percent step of the sensor maximum.
   */
  function IsoSplit(manualIso: int, maxSensorIso: int): (s: SensorIso)
    requires maxSensorIso > 0
    ensures 100 <= s.boost <= MaxBoost
    ensures manualIso <= maxSensorIso ==> s == SensorIso(manualIso, 100)
    ensures manualIso > maxSensorIso ==> s.sensitivity == maxSensorIso
    ensures s.sensitivity * s.boost <= manualIso * 100
    ensures manualIso > maxSensorIso && s.boost < MaxBoost ==>
              manualIso * 100 < s.sensitivity * (s.boost + 1)
  {
    if manualIso <= maxSensorIso then SensorIso(manualIso, 100)
    else
      var q := TruncDiv(manualIso * 100, maxSensorIso);
      HighIsoBoost(manualIso, maxSensorIso);
      SensorIso(maxSensorIso, Min(q, MaxBoost))
  }

  /** Above the sensor maximum the capped quotient is a boost of at least 100 % that never overshoots. */
  lemma HighIsoBoost(manualIso: int, maxSensorIso: int)
    requires 0 < maxSensorIso < manualIso
    ensures var b := Min((manualIso * 100) / maxSensorIso, MaxBoost);
      && 100 <= b <= MaxBoost
      && maxSensorIso * b <= manualIso * 100
      && (b < MaxBoost ==> manualIso * 100 < maxSensorIso * (b + 1))
  {
    var a := manualIso * 100;
    var q := a / maxSensorIso;
    FloorDivBounds(a, maxSensorIso);
    assert q * maxSensorIso <= a < (q + 1) * maxSensorIso;
    MulMonotone(100, maxSensorIso, manualIso);
    assert maxSensorIso * 100 < maxSensorIso * (q + 1);
    MulCancelLt(maxSensorIso, 100, q + 1);
    MulMonotone(maxSensorIso, Min(q, MaxBoost), q);
  }

  lemma MulCancelLt(k: int, x: int, y: int)
    requires k > 0 && k * x < k * y
    ensures x < y
  {
    if y <= x {
      MulMonotone(k, y, x);
    }
  }

  lemma FloorDivBounds(a: int, b: int)
    requires a >= 0 && b > 0
    ensures (a / b) * b <= a < (a / b + 1) * b
  {
  }

  lemma FloorDivBoundsNonNeg(a: int, b: int)
    requires b > 0
    ensures a >= 0 ==> (a / b) * b <= a < (a / b + 1) * b
  {
    if a >= 0 { FloorDivBounds(a, b); }
  }

  /** The ISO the request amounts to: sensitivity times boost, in percent. */
  function EffectiveIsoPercent(s: SensorIso): int
  {
    s.sensitivity * s.boost
  }

  /** Asking for more ISO never yields less effective ISO. */
  lemma {:induction false} IsoSplitMonotone(m1: int, m2: int, maxSensorIso: int)
    requires maxSensorIso > 0 && m1 <= m2
    ensures EffectiveIsoPercent(IsoSplit(m1, maxSensorIso)) <= EffectiveIsoPercent(IsoSplit(m2, maxSensorIso))
  {
    var s1 := IsoSplit(m1, maxSensorIso);
    var s2 := IsoSplit(m2, maxSensorIso);
    if m2 > maxSensorIso {
      if m1 > maxSensorIso {
        DivMonotone(m1 * 100, m2 * 100, maxSensorIso);
        assert s1.boost <= s2.boost;
        MulMonotone(maxSensorIso, s1.boost, s2.boost);
      } else {
        assert s1.sensitivity * 100 <= maxSensorIso * 100;
        MulMonotone(maxSensorIso, 100, s2.boost);
      }
    } else {
      MulMonotone(100, m1, m2);
    }
  }

  lemma DivMonotone(a: int, b: int, d: int)
    requires 0 <= a <= b && d > 0
    ensures a / d <= b / d
  {
    var qa, qb := a / d, b / d;
    FloorDivBounds(a, d);
    FloorDivBounds(b, d);
    assert d * qa <= a <= b < d * (qb + 1);
    MulCancelLt(d, qa, qb + 1);
  }

  lemma MulMonotone(k: int, x: int, y: int)
    requires k >= 0 && x <= y
    ensures k * x <= k * y
  {
    assert k * y - k * x == k * (y - x);
  }

  /** A request of 6400 on a 1600 sensor: full sensor gain and a 4x boost. */
  lemma IsoSplitExample()
    ensures IsoSplit(6400, 1600) == SensorIso(1600, 400)
    ensures IsoSplit(51200 * 2, 1600) == SensorIso(1600, MaxBoost)
    ensures IsoSplit(800, 1600) == SensorIso(800, 100)
  {
  }

  // ---------------------------------------------------------------------
  // Exposure compensation index
  // ---------------------------------------------------------------------

  function EcLower(c: Capabilities): int
  {
    if c.ecRange.Some? then c.ecRange.value.lower else -12
  }

  function EcUpper(c: Capabilities): int
  {
    if c.ecRange.Some? then c.ecRange.value.upper else 12
  }

  /**
   * The compensation index stored for an EV value: ev / step truncated toward
   * zero, clamped to the device's compensation range. A zero step follows
   * Float division: a positive EV saturates to the upper bound, a negative one
   * to the lower bound, and 0/0 (NaN) converts to index 0.
   */
  function EcIndex(c: Capabilities, ev: real): (i: int)
    requires WellFormed(c)
    ensures EcLower(c) <= i <= EcUpper(c)
    ensures c.ecStep == 0.0 && ev > 0.0 ==> i == EcUpper(c)
    ensures c.ecStep == 0.0 && ev < 0.0 ==> i == EcLower(c)
  {
    var lo := EcLower(c);
    var hi := EcUpper(c);
    if c.ecStep == 0.0 then
      if ev > 0.0 then hi else if ev < 0.0 then lo else CoerceIn(0, lo, hi)
    else
      CoerceIn(FloatToInt(ev / c.ecStep), lo, hi)
  }

  /**
   * With a positive step and an EV inside the device range, the index is the
   * number of whole steps in the EV toward zero: i steps never go past the
   * requested EV, and one more step would.
   */
  lemma EcIndexTruncatesTowardZero(c: Capabilities, ev: real)
    requires WellFormed(c) && c.ecStep > 0.0
    requires EcLower(c) <= FloatToInt(ev / c.ecStep) <= EcUpper(c)
    ensures ev >= 0.0 ==> 0 <= EcIndex(c, ev) && EcIndex(c, ev) as real * c.ecStep <= ev < (EcIndex(c, ev) + 1) as real * c.ecStep
    ensures ev < 0.0 ==> EcIndex(c, ev) <= 0 && (EcIndex(c, ev) - 1) as real * c.ecStep < ev <= EcIndex(c, ev) as real * c.ecStep
  {
    assert EcIndex(c, ev) == FloatToInt(ev / c.ecStep);
    WholeSteps(ev, c.ecStep, EcIndex(c, ev));
  }

  /** Truncating ev / step counts the whole steps in ev toward zero. */
  lemma WholeSteps(ev: real, step: real, i: int)
    requires step > 0.0 && i == FloatToInt(ev / step)
    ensures ev >= 0.0 ==> 0 <= i && i as real * step <= ev < (i + 1) as real * step
    ensures ev < 0.0 ==> i <= 0 && (i - 1) as real * step < ev <= i as real * step
  {
    var q := ev / step;
    DivMulCancel(ev, step);
    var lo := i as real;
    if ev >= 0.0 {
      var hi := (i + 1) as real;
      assert hi == lo + 1.0 && lo <= q < hi;
      ScaledBelow(lo, q, hi, step, ev);
    } else {
      var below := (i - 1) as real;
      assert below == lo - 1.0 && below < q <= lo;
      ScaledAbove(below, q, lo, step, ev);
    }
  }

  /** Scaling `a <= q < b` by a positive step, with `q * step == ev`. */
  lemma ScaledBelow(a: real, q: real, b: real, step: real, ev: real)
    requires a <= q < b && step > 0.0 && q * step == ev
    ensures a * step <= ev < b * step
  {
    RealScale(a, q, step);
    RealScaleStrict(q, b, step);
  }

  /** Scaling `a < q <= b` by a positive step, with `q * step == ev`. */
  lemma ScaledAbove(a: real, q: real, b: real, step: real, ev: real)
    requires a < q <= b && step > 0.0 && q * step == ev
    ensures a * step < ev <= b * step
  {
    RealScaleStrict(a, q, step);
    RealScale(q, b, step);
  }

  lemma DivMulCancel(x: real, k: real)
    requires k > 0.0
    ensures (x / k) * k == x
    ensures x >= 0.0 <==> x / k >= 0.0
  {
  }

  lemma RealScale(x: real, y: real, k: real)
    requires x <= y && k > 0.0
    ensures x * k <= y * k
  {
    assert y * k - x * k == (y - x) * k;
  }

  lemma ScaledUnitInRange(x: real, k: real)
    requires k > 0.0
    ensures 0.0 <= x <= 1.0 ==> 0.0 <= x * k <= k
  {
    if 0.0 <= x <= 1.0 {
      RealScale(0.0, x, k);
      RealScale(x, 1.0, k);
    }
  }

  lemma ScaledPixelInRange(x: real, n: int)
    requires n >= 1
    ensures 0.0 <= x <= 1.0 ==> 0 <= FloatToInt(x * n as real) <= n
  {
    ScaledUnitInRange(x, n as real);
  }

  lemma RealScaleStrict(x: real, y: real, k: real)
    requires x < y && k > 0.0
    ensures x * k < y * k
  {
    assert y * k - x * k == (y - x) * k;
  }

  // ---------------------------------------------------------------------
  // Orientation
  // ---------------------------------------------------------------------

  /** One of the four right-angle orientations, in degrees. */
  predicate IsQuarter(d: int)
  {
    d == 0 || d == 90 || d == 180 || d == 270
  }

  /**
   * Surface.ROTATION_0..ROTATION_270 (0..3) as clockwise degrees; any other
   * value counts as 0 degrees.
   */
  function DeviceDegrees(rotation: int): (d: int)
    ensures IsQuarter(d)
    ensures 0 <= rotation <= 3 ==> d == 90 * rotation
    ensures !(0 <= rotation <= 3) ==> d == 0
  {
    if rotation == 1 then 90
    else if rotation == 2 then 180
    else if rotation == 3 then 270
    else 0
  }

  /**
   * getJpegOrientation: (sensor - device + 360) % 360 with Kotlin's `%`. For
   * a non-negative sensor orientation it is an angle in [0, 360) that, added
   * to the device rotation, gives back the sensor orientation modulo 360, and
   * a right-angle sensor orientation gives a right-angle result.
   */
  function JpegOrientation(sensorOrientation: int, rotation: int): (r: int)
    ensures sensorOrientation >= 0 ==> 0 <= r < 360
    ensures sensorOrientation >= 0 ==> (r + DeviceDegrees(rotation)) % 360 == sensorOrientation % 360
    ensures IsQuarter(sensorOrientation) ==> IsQuarter(r)
  {
    var d := DeviceDegrees(rotation);
    CompensationUndoesRotation(sensorOrientation, d);
    TruncRem(sensorOrientation - d + 360, 360)
  }

  lemma CompensationUndoesRotation(s: int, d: int)
    requires IsQuarter(d)
    ensures s >= 0 ==> ((s - d + 360) % 360 + d) % 360 == s % 360
  {
    if s >= 0 {
      var a := s - d + 360;
      assert a == (a / 360) * 360 + a % 360;
      assert s == (s / 360) * 360 + s % 360;
      var k := a / 360 - 1;
      assert a % 360 + d == s - k * 360;
      ModMultiple(s, k);
    }
  }

  lemma ModMultiple(s: int, k: int)
    ensures (s - k * 360) % 360 == s % 360
  {
    var t := s - k * 360;
    assert t == (s / 360 - k) * 360 + s % 360;
  }

  /**
   * getExifOrientation: the EXIF orientation tag for a JPEG rotation
   * (NORMAL = 1, ROTATE_90 = 6, ROTATE_180 = 3, ROTATE_270 = 8); any
   * other angle is NORMAL.
   */
  function ExifOrientation(jpegOrientation: int): (e: int)
    ensures e in {1, 3, 6, 8}
    ensures !IsQuarter(jpegOrientation) ==> e == 1
  {
    if jpegOrientation == 90 then 6
    else if jpegOrientation == 180 then 3
    else if jpegOrientation == 270 then 8
    else 1
  }

  /** The rotation, in degrees, an EXIF orientation tag stands for. */
  function ExifDegrees(e: int): (d: int)
    ensures IsQuarter(d)
  {
    if e == 6 then 90 else if e == 3 then 180 else if e == 8 then 270 else 0
  }

  /** The EXIF tag records exactly the JPEG rotation for every right angle. */
  lemma ExifOrientationRoundTrip(d: int)
    requires IsQuarter(d)
    ensures ExifDegrees(ExifOrientation(d)) == d
  {
  }

  /** Distinct right angles get distinct EXIF tags. */
  lemma ExifOrientationInjective(d1: int, d2: int)
    requires IsQuarter(d1) && IsQuarter(d2)
    requires ExifOrientation(d1) == ExifOrientation(d2)
    ensures d1 == d2
  {
    ExifOrientationRoundTrip(d1);
    ExifOrientationRoundTrip(d2);
  }

  // ---------------------------------------------------------------------
  // Tap to focus
  // ---------------------------------------------------------------------

  /** A point in normalised coordinates (Float pairs of the source). */
  datatype Point = Point(x: real, y: real)

  /** The metering rectangle handed to CONTROL_AF_REGIONS / CONTROL_AE_REGIONS. */
  datatype Rect = Rect(left: int, top: int, right: int, bottom: int)

  predicate InUnitSquare(p: Point)
  {
    0.0 <= p.x <= 1.0 && 0.0 <= p.y <= 1.0
  }

  /**
   * The tap's normalised view point turned into normalised sensor
   * coordinates for the sensor orientation: a quarter turn for 90 and 270,
   * a half turn for 180, otherwise unchanged. It keeps the unit square.
   */
  function NormalizedSensorPoint(orientation: int, p: Point): (q: Point)
    ensures InUnitSquare(p) ==> InUnitSquare(q)
    ensures !(orientation == 90 || orientation == 180 || orientation == 270) ==> q == p
  {
    if orientation == 90 then Point(p.y, 1.0 - p.x)
    else if orientation == 270 then Point(1.0 - p.y, p.x)
    else if orientation == 180 then Point(1.0 - p.x, 1.0 - p.y)
    else p
  }

  /** The sensor transforms compose like rotations of the square. */
  lemma SensorTransformsAreRotations(p: Point)
    ensures NormalizedSensorPoint(90, NormalizedSensorPoint(90, p)) == NormalizedSensorPoint(180, p)
    ensures NormalizedSensorPoint(270, NormalizedSensorPoint(90, p)) == p
    ensures NormalizedSensorPoint(90, NormalizedSensorPoint(270, p)) == p
    ensures NormalizedSensorPoint(180, NormalizedSensorPoint(180, p)) == p
  {
  }

  /**
   * Where the view's corners land on the sensor. For 90 the view's top
   * edge runs down the sensor's left edge, for 270 up its right edge, and
   * for 180 along its bottom edge from the right.
   */
  lemma NormalizedSensorPointCorners()
    ensures NormalizedSensorPoint(90, Point(0.0, 0.0)) == Point(0.0, 1.0)
    ensures NormalizedSensorPoint(90, Point(1.0, 0.0)) == Point(0.0, 0.0)
    ensures NormalizedSensorPoint(90, Point(0.0, 1.0)) == Point(1.0, 1.0)
    ensures NormalizedSensorPoint(270, Point(0.0, 0.0)) == Point(1.0, 0.0)
    ensures NormalizedSensorPoint(270, Point(1.0, 0.0)) == Point(1.0, 1.0)
    ensures NormalizedSensorPoint(270, Point(0.0, 1.0)) == Point(0.0, 0.0)
    ensures NormalizedSensorPoint(180, Point(0.0, 0.0)) == Point(1.0, 1.0)
    ensures NormalizedSensorPoint(180, Point(1.0, 0.0)) == Point(0.0, 1.0)
    ensures NormalizedSensorPoint(180, Point(0.0, 1.0)) == Point(1.0, 0.0)
  {
  }

  /**
   * The sensor-to-view direction, stated on its own: the view point that
   * a sensor point shows, for a sensor mounted at the given orientation.
   */
  function ViewPointOf(orientation: int, q: Point): (p: Point)
    ensures InUnitSquare(q) ==> InUnitSquare(p)
  {
    if orientation == 90 then Point(1.0 - q.y, q.x)
    else if orientation == 270 then Point(q.y, 1.0 - q.x)
    else if orientation == 180 then Point(1.0 - q.x, 1.0 - q.y)
    else q
  }

  /** The tap transform and the sensor-to-view direction undo each other. */
  lemma NormalizedSensorPointInverts(orientation: int, p: Point)
    ensures ViewPointOf(orientation, NormalizedSensorPoint(orientation, p)) == p
    ensures NormalizedSensorPoint(orientation, ViewPointOf(orientation, p)) == p
  {
  }

  /** Integer sensor coordinates: each normalised coordinate scaled and truncated. */
  function SensorPixel(q: Point, active: Size): (r: (int, int))
    requires active.width >= 1 && active.height >= 1
    ensures InUnitSquare(q) ==> 0 <= r.0 <= active.width && 0 <= r.1 <= active.height
  {
    ScaledPixelInRange(q.x, active.width);
    ScaledPixelInRange(q.y, active.height);
    (FloatToInt(q.x * active.width as real), FloatToInt(q.y * active.height as real))
  }

  /** Half the side of the metering square: a twentieth of the shorter active side. */
  function FocusHalfSize(active: Size): (f: int)
    requires active.width >= 1 && active.height >= 1
    ensures f >= 0 && 20 * f <= active.width && 20 * f <= active.height
    ensures Min(active.width, active.height) >= 20 ==> f >= 1
  {
    Min(active.width, active.height) / 20
  }

  /**
   * The metering rectangle around a sensor pixel, clamped to the active
   * array: its edges always lie inside the array; for an array of at least
   * 20 pixels each way it is never empty; and a pixel inside the array lies
   * inside its rectangle.
   */
  function FocusRect(sx: int, sy: int, active: Size): (r: Rect)
    requires active.width >= 1 && active.height >= 1
    ensures 0 <= r.left <= active.width - 1 && 0 <= r.top <= active.height - 1
    ensures 1 <= r.right <= active.width && 1 <= r.bottom <= active.height
    ensures Min(active.width, active.height) >= 20 ==> r.left < r.right && r.top < r.bottom
    ensures 0 <= sx <= active.width && 0 <= sy <= active.height ==>
              r.left <= sx <= r.right && r.top <= sy <= r.bottom
  {
    var f := FocusHalfSize(active);
    Rect(CoerceIn(sx - f, 0, active.width - 1), CoerceIn(sy - f, 0, active.height - 1),
         CoerceIn(sx + f, 1, active.width), CoerceIn(sy + f, 1, active.height))
  }

  /**
   * The whole mapping of onTapToFocus from a tap at (x, y) in a view of the
   * given size to the metering rectangle. A tap inside the view gives a
   * rectangle that contains the tapped sensor pixel.
   */
  function TapFocusRect(orientation: int, x: real, y: real, viewWidth: real, viewHeight: real, active: Size): (r: Rect)
    requires viewWidth > 0.0 && viewHeight > 0.0
    requires active.width >= 1 && active.height >= 1
    ensures 0 <= r.left < active.width && 0 <= r.top < active.height
    ensures 0 < r.right <= active.width && 0 < r.bottom <= active.height
    ensures 0.0 <= x <= viewWidth && 0.0 <= y <= viewHeight ==>
              var px := SensorPixel(NormalizedSensorPoint(orientation, Point(x / viewWidth, y / viewHeight)), active);
              r.left <= px.0 <= r.right && r.top <= px.1 <= r.bottom
  {
    var p := Point(x / viewWidth, y / viewHeight);
    FractionInUnitReal(x, viewWidth);
    FractionInUnitReal(y, viewHeight);
    var px := SensorPixel(NormalizedSensorPoint(orientation, p), active);
    FocusRect(px.0, px.1, active)
  }

  /**
   * On a 4000x3000 array with the sensor at 90, a tap at the view's
   * top-left corner meters the sensor's bottom-left corner: a 150-pixel
   * half side, clamped at the left and bottom edges.
   */
  lemma TapFocusRectCornerExample()
    ensures TapFocusRect(90, 0.0, 0.0, 1080.0, 1920.0, Size(4000, 3000)) == Rect(0, 2850, 150, 3000)
  {
    var q := NormalizedSensorPoint(90, Point(0.0 / 1080.0, 0.0 / 1920.0));
    assert q == Point(0.0, 1.0);
    assert SensorPixel(q, Size(4000, 3000)) == (0, 3000);
  }

  lemma FractionInUnitReal(a: real, d: real)
    requires d > 0.0
    ensures 0.0 <= a <= d ==> 0.0 <= a / d <= 1.0
  {
  }

  // ---------------------------------------------------------------------
  // Preview size and thumbnail sample size
  // ---------------------------------------------------------------------

  function Area(s: Size): int
  {
    s.width * s.height
  }

  function RealAbs(x: real): real
  {
    if x < 0.0 then -x else x
  }

  /**
   * A preview size the controller accepts: aspect ratio within 0.1 of 4:3
   * and no wider than 1440. A zero height gives an infinite or NaN ratio,
   * which never passes.
   */
  predicate SuitablePreview(s: Size)
  {
    s.height != 0
    && RealAbs(s.width as real / s.height as real - 4.0 / 3.0) < 0.1
    && s.width <= 1440
  }

  /**
   * The index Kotlin's `maxByOrNull { w * h }` settles on: a largest area,
   * the first one on a tie.
   */
  function FirstMaxArea(s: seq<Size>): (k: nat)
    requires |s| > 0
    ensures k < |s|
    ensures forall j :: 0 <= j < |s| ==> Area(s[j]) <= Area(s[k])
    ensures forall j :: 0 <= j < k ==> Area(s[j]) < Area(s[k])
  {
    if |s| == 1 then 0
    else
      var k' := FirstMaxArea(s[1..]);
      if Area(s[0]) >= Area(s[1 + k']) then 0 else 1 + k'
  }

  /**
   * The index of the first suitable size of largest area, or -1 when none is
   * suitable (a stable descending sort by area followed by firstOrNull).
   */
  function FirstMaxSuitable(s: seq<Size>): (k: int)
    ensures -1 <= k < |s|
    ensures k == -1 <==> forall j :: 0 <= j < |s| ==> !SuitablePreview(s[j])
    ensures k >= 0 ==> SuitablePreview(s[k])
    ensures k >= 0 ==> forall j :: 0 <= j < |s| && SuitablePreview(s[j]) ==> Area(s[j]) <= Area(s[k])
    ensures k >= 0 ==> forall j :: 0 <= j < k && SuitablePreview(s[j]) ==> Area(s[j]) < Area(s[k])
  {
    if s == [] then -1
    else
      var k' := FirstMaxSuitable(s[1..]);
      if !SuitablePreview(s[0]) then (if k' == -1 then -1 else 1 + k')
      else if k' == -1 || Area(s[0]) >= Area(s[1 + k']) then 0
      else 1 + k'
  }

  const DefaultPreviewSize: Size := Size(1440, 1080)

  /**
   * chooseOptimalPreviewSize (the target view size is not used by the
   * source): 1440x1080 without choices; otherwise the first suitable size of
   * largest area, or, when none is suitable, the first size of largest area.
   */
  function ChooseOptimalPreviewSize(choices: seq<Size>): (r: Size)
    ensures choices == [] ==> r == DefaultPreviewSize
    ensures choices != [] ==> r in choices
    ensures (exists j :: 0 <= j < |choices| && SuitablePreview(choices[j])) ==>
              SuitablePreview(r) && forall j :: 0 <= j < |choices| && SuitablePreview(choices[j]) ==> Area(choices[j]) <= Area(r)
    ensures (forall j :: 0 <= j < |choices| ==> !SuitablePreview(choices[j])) ==>
              forall j :: 0 <= j < |choices| ==> Area(choices[j]) <= Area(r)
  {
    if choices == [] then DefaultPreviewSize
    else
      var k := FirstMaxSuitable(choices);
      if k >= 0 then choices[k] else choices[FirstMaxArea(choices)]
  }

  /** The capture size used when the device lists no sizes for a format. */
  const DefaultCaptureSize: Size := Size(4000, 3000)

  /**
   * An image reader's size (`sizes?.maxByOrNull { w * h } ?: fallback`):
   * the first size of largest area, or the fallback when none is listed.
   */
  function LargestOr(sizes: seq<Size>, fallback: Size): (r: Size)
    ensures sizes == [] ==> r == fallback
    ensures sizes != [] ==> r in sizes && forall j :: 0 <= j < |sizes| ==> Area(sizes[j]) <= Area(r)
    ensures sizes != [] ==> exists k :: 0 <= k < |sizes| && r == sizes[k] && forall j :: 0 <= j < k ==> Area(sizes[j]) < Area(r)
  {
    if sizes == [] then fallback
    else
      var k := FirstMaxArea(sizes);
      sizes[k]
  }

  /**
   * The decode sample size for the preview thumbnail: the shorter side over
   * 400 (Kotlin division), at least 1. The subsampled short side stays at
   * least 400 and below 800 whenever the image is that large.
   */
  function SampleSize(outWidth: int, outHeight: int): (r: int)
    ensures r >= 1
    ensures Min(outWidth, outHeight) < 800 ==> r == 1
    ensures Min(outWidth, outHeight) >= 400 ==>
              400 * r <= Min(outWidth, outHeight) < 400 * (r + 1)
  {
    var m := Min(outWidth, outHeight);
    FloorDivBoundsNonNeg(m, 400);
    Max(1, TruncDiv(m, 400))
  }
}
