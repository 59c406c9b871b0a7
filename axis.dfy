/**
 * A chart axis: its bounds, its place on the canvas and the mapping between
 * data values and display positions, computed over the reals; the automatic
 * range and the clamp on the number of tick decimals.
 */
module ChartAxis {

  datatype Orientation = HORIZONTAL | VERTICAL

  /**
   * The tick layout an axis computes for a range and a length (its spacing
   * from log10, floor and pow); it is an input here.
   */
  datatype TickInfo = TickInfo(minorSpace: real, majorSpace: real, majorStart: real, majorEnd: real, centerMode: bool)

  /** Math.ceil over the reals. */
  function Ceil(x: real): (r: int)
    ensures x <= r as real < x + 1.0
  {
    -((-x).Floor)
  }

  class Axis {
    const orientation: Orientation
    var width: real
    var height: real
    var reverse: bool
    var zeroIncluded: bool
    var xOrigin: real
    var yOrigin: real
    const defaultLower: real
    const defaultUpper: real
    var lowerBound: real
    var upperBound: real

    /** A new axis: its bounds are the given defaults until they are set, its origin is (100, 800). */
    constructor(orientation: Orientation, lowerBound: real, upperBound: real, width: real, height: real)
      ensures this.orientation == orientation && this.width == width && this.height == height
      ensures defaultLower == lowerBound && defaultUpper == upperBound
      ensures this.lowerBound == defaultLower && this.upperBound == defaultUpper
      ensures xOrigin == 100.0 && yOrigin == 800.0 && !reverse && !zeroIncluded
    {
      this.orientation := orientation;
      defaultLower := lowerBound;
      defaultUpper := upperBound;
      this.width := width;
      this.height := height;
      this.lowerBound := lowerBound;
      this.upperBound := upperBound;
      xOrigin := 100.0;
      yOrigin := 800.0;
      reverse := false;
      zeroIncluded := false;
    }

    /** getRange: the span of the bounds. */
    function Range(): real
      reads this
    {
      upperBound - lowerBound
    }

    /** The extent of the axis on the canvas: its height when vertical, its width otherwise. */
    function Length(): real
      reads this
    {
      if orientation == VERTICAL then height else width
    }

    /** calcScale: display units per data unit, so that the whole range spans the length of the axis. */
    function Scale(): (s: real)
      requires Range() != 0.0
      reads this
      ensures s * Range() == Length()
    {
      Length() / Range()
    }

    /** getDisplayPosition: where a value lies on the canvas. */
    function DisplayPosition(value: real): real
      requires Range() != 0.0
      reads this
    {
      var f := (value - lowerBound) / (upperBound - lowerBound);
      if orientation == HORIZONTAL then
        if reverse then xOrigin + width - f * width else xOrigin + f * width
      else
        if !reverse then yOrigin - f * height else yOrigin - height + f * height
    }

    /** getValueForDisplay: the value at a canvas position. */
    function ValueForDisplay(displayPosition: real): real
      requires Range() != 0.0 && Length() != 0.0
      reads this
    {
      var scaleValue := Scale();
      var length := Length();
      var offset := if orientation == VERTICAL then yOrigin - height else xOrigin;
      var p := displayPosition - offset;
      var q := if reverse && orientation == HORIZONTAL then length - p
               else if !reverse && orientation == VERTICAL then length - p
               else p;
      q / scaleValue + lowerBound
    }

    /** setMinMax: both bounds at once. */
    method SetMinMax(min: real, max: real)
      modifies this`lowerBound, this`upperBound
      ensures lowerBound == min && upperBound == max
    {
      lowerBound := min;
      upperBound := max;
    }

    method SetLowerBound(value: real)
      modifies this`lowerBound
      ensures lowerBound == value
    {
      lowerBound := value;
    }

    method SetUpperBound(value: real)
      modifies this`upperBound
      ensures upperBound == value
    {
      upperBound := value;
    }

    method SetOrigin(x: real, y: real)
      modifies this`xOrigin, this`yOrigin
      ensures xOrigin == x && yOrigin == y
    {
      xOrigin := x;
      yOrigin := y;
    }

    /**
     * autoRange: fits the bounds to the data range [min, max] (stretched to
     * include zero when asked) and stores them; the pair returned is the
     * stored bounds.
     */
    method AutoRange(min: real, max: real, tickInfo: (real, real, real) -> TickInfo) returns (result: (real, real))
      requires AutoRangeDefined(min, max, zeroIncluded, Length(), tickInfo)
      modifies this`lowerBound, this`upperBound
      ensures result == AutoRanged(min, max, zeroIncluded, old(Length()), tickInfo)
      ensures result == (lowerBound, upperBound)
    {
      result := AutoRanged(min, max, zeroIncluded, Length(), tickInfo);
      SetMinMax(result.0, result.1);
    }
  }

  /** The data range with zero included when asked: a positive min becomes 0 and a negative max becomes 0. */
  function ZeroAdjusted(min: real, max: real, zeroIncluded: bool): (r: (real, real))
    ensures zeroIncluded ==> r.0 <= 0.0 && r.1 >= 0.0
    ensures zeroIncluded ==> r.0 == (if min > 0.0 then 0.0 else min) && r.1 == (if max < 0.0 then 0.0 else max)
    ensures !zeroIncluded ==> r == (min, max)
  {
    if !zeroIncluded then (min, max)
    else (if min > 0.0 then 0.0 else min, if max < 0.0 then 0.0 else max)
  }

  /** The tick layout autoRange uses has a non-zero minor spacing whenever it is not centred. */
  predicate AutoRangeDefined(min: real, max: real, zeroIncluded: bool, length: real, tickInfo: (real, real, real) -> TickInfo)
  {
    var (lo, hi) := ZeroAdjusted(min, max, zeroIncluded);
    var tf := tickInfo(lo, hi, length);
    tf.centerMode || tf.minorSpace > 0.0
  }

  /**
   * The bounds autoRange chooses. Centred ticks keep the (zero-adjusted)
   * range; otherwise each end moves to the nearest major tick inside the
   * range and then outwards by whole minor steps, one more than needed to
   * pass the data; a min raised to zero stays fixed.
   */
  function AutoRanged(min: real, max: real, zeroIncluded: bool, length: real, tickInfo: (real, real, real) -> TickInfo): (real, real)
    requires AutoRangeDefined(min, max, zeroIncluded, length, tickInfo)
  {
    var (lo, hi) := ZeroAdjusted(min, max, zeroIncluded);
    var keepMin := zeroIncluded && min > 0.0;
    var tf := tickInfo(lo, hi, length);
    if tf.centerMode then (lo, hi)
    else
      var adjust := tf.minorSpace;
      var majEnd := if tf.majorEnd > hi then tf.majorEnd - tf.majorSpace else tf.majorEnd;
      var majStart := if tf.majorStart < lo then tf.majorStart + tf.majorSpace else tf.majorStart;
      var deltaMin := Abs(majStart - lo);
      var deltaMax := Abs(hi - majEnd);
      var newMin := if keepMin then lo else majStart - Steps(deltaMin, adjust);
      var newMax := majEnd + Steps(deltaMax, adjust);
      (newMin, newMax)
  }

  function Abs(x: real): real { if x < 0.0 then -x else x }

  /** One more whole step of a positive size than it takes to cover the distance d. */
  function Steps(d: real, step: real): real
    requires step > 0.0
  {
    (Ceil(d / step) as real + 1.0) * step
  }

  /** The steps span at least the distance and one step more. */
  lemma {:induction false} CeilSteps(d: real, step: real)
    requires d >= 0.0 && step > 0.0
    ensures Steps(d, step) >= d + step
  {
    var c := Ceil(d / step) as real;
    assert c >= d / step;
    assert c * step >= (d / step) * step;
  }

  /**
   * The automatic range contains the data: a min raised to zero is kept at
   * zero, and otherwise both ends lie beyond the zero-adjusted data range,
   * by a minor step when the ticks are not centred.
   */
  lemma {:induction false} AutoRangeContains(min: real, max: real, zeroIncluded: bool, length: real,
                                             tickInfo: (real, real, real) -> TickInfo)
    requires AutoRangeDefined(min, max, zeroIncluded, length, tickInfo)
    ensures var (lo, hi) := ZeroAdjusted(min, max, zeroIncluded);
      var r := AutoRanged(min, max, zeroIncluded, length, tickInfo);
      (zeroIncluded && min > 0.0 ==> r.0 == 0.0)
      && (tickInfo(lo, hi, length).centerMode ==> r == (lo, hi))
      && (!tickInfo(lo, hi, length).centerMode ==>
            r.1 >= hi + tickInfo(lo, hi, length).minorSpace
            && (!(zeroIncluded && min > 0.0) ==> r.0 <= lo - tickInfo(lo, hi, length).minorSpace))
  {
    var (lo, hi) := ZeroAdjusted(min, max, zeroIncluded);
    var tf := tickInfo(lo, hi, length);
    if !tf.centerMode {
      var majEnd := if tf.majorEnd > hi then tf.majorEnd - tf.majorSpace else tf.majorEnd;
      var majStart := if tf.majorStart < lo then tf.majorStart + tf.majorSpace else tf.majorStart;
      CeilSteps(Abs(hi - majEnd), tf.minorSpace);
      CeilSteps(Abs(majStart - lo), tf.minorSpace);
    }
  }

  /** The number of tick-label decimals, clamped to [0, 10]. */
  function TickDecimals(rounded: int): (n: int)
    ensures 0 <= n <= 10
    ensures 0 <= rounded <= 10 ==> n == rounded
    ensures rounded < 0 ==> n == 0
    ensures rounded > 10 ==> n == 10
  {
    if rounded < 0 then 0 else if rounded > 10 then 10 else rounded
  }

  /** The bounds map to the two ends of the axis, swapped when it is reversed. */
  lemma {:induction false} DisplayEnds(a: Axis)
    requires a.Range() != 0.0
    ensures a.orientation == HORIZONTAL && !a.reverse ==>
      a.DisplayPosition(a.lowerBound) == a.xOrigin && a.DisplayPosition(a.upperBound) == a.xOrigin + a.width
    ensures a.orientation == HORIZONTAL && a.reverse ==>
      a.DisplayPosition(a.lowerBound) == a.xOrigin + a.width && a.DisplayPosition(a.upperBound) == a.xOrigin
    ensures a.orientation == VERTICAL && !a.reverse ==>
      a.DisplayPosition(a.lowerBound) == a.yOrigin && a.DisplayPosition(a.upperBound) == a.yOrigin - a.height
    ensures a.orientation == VERTICAL && a.reverse ==>
      a.DisplayPosition(a.lowerBound) == a.yOrigin - a.height && a.DisplayPosition(a.upperBound) == a.yOrigin
  {
    assert (a.upperBound - a.lowerBound) / (a.upperBound - a.lowerBound) == 1.0;
  }

  /** Reading a value back from its display position gives the value, in all four orientation and reverse cases. */
  lemma {:induction false} ValueOfDisplayPosition(a: Axis, v: real)
    requires a.Range() != 0.0 && a.Length() != 0.0
    ensures a.ValueForDisplay(a.DisplayPosition(v)) == v
  {
    var f := (v - a.lowerBound) / a.Range();
    var length := a.Length();
    assert f * length / a.Scale() == v - a.lowerBound by {
      assert a.Scale() * a.Range() == length;
      assert f * a.Range() == v - a.lowerBound;
    }
  }

  /** Showing the value at a display position puts it at that position. */
  lemma {:induction false} DisplayPositionOfValue(a: Axis, p: real)
    requires a.Range() != 0.0 && a.Length() != 0.0
    ensures a.DisplayPosition(a.ValueForDisplay(p)) == p
  {
    var length := a.Length();
    var offset := if a.orientation == VERTICAL then a.yOrigin - a.height else a.xOrigin;
    var q := if a.reverse && a.orientation == HORIZONTAL then length - (p - offset)
             else if !a.reverse && a.orientation == VERTICAL then length - (p - offset)
             else p - offset;
    var v := a.ValueForDisplay(p);
    assert v - a.lowerBound == q / a.Scale();
    assert (v - a.lowerBound) / a.Range() * length == q by {
      assert a.Scale() * a.Range() == length;
    }
  }
}
