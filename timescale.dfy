/** The time-scale brush visual: its data, dimensions and selected range, the
    scale domains and ranges derived from them, and the rule that decides when
    a new selection is stored and drawn. Dates are integer timestamps. */
module TimeScaleState {
  import opened JsValues

  /** One bar of the time scale. */
  datatype Sample = Sample(date: int, value: int)

  datatype Dimensions = Dimensions(width: int, height: int)

  /** The object handed to the dimensions setter; `None` is a missing (or
      `undefined`) property. */
  datatype DimensionsUpdate = DimensionsUpdate(width: Option<int>, height: Option<int>)

  /** A scale domain `[lo, hi]`; `None` stands for the `undefined` that d3's
      extent and max give for an empty list. */
  datatype Domain = Domain(lo: Option<int>, hi: Option<int>)

  /** A scale's output range `[lo, hi]`. */
  datatype Span = Span(lo: int, hi: int)

  /** The selected range: unset (`null` or `undefined`) or an array of dates.
      An empty array is set. */
  datatype DateRange = Unset | Dates(times: seq<int>)

  const InitialDimensions := Dimensions(500, 500)

  const MarginTop := 0
  const MarginRight := 10
  const MarginBottom := 20
  const MarginLeft := 10

  // ---------------------------------------------------------------------------
  // Extents

  /** `d3.min`: the least element, or `None` for an empty list. */
  function Minimum(s: seq<int>): (m: Option<int>)
    ensures m.None? <==> s == []
    ensures m.Some? ==> m.value in s && forall x :: x in s ==> m.value <= x
  {
    if s == [] then None
    else
      var rest := Minimum(s[..|s| - 1]);
      var last := s[|s| - 1];
      assert s == s[..|s| - 1] + [last];
      if rest.Some? && rest.value <= last then rest else Some(last)
  }

  /** `d3.max`: the greatest element, or `None` for an empty list. */
  function Maximum(s: seq<int>): (m: Option<int>)
    ensures m.None? <==> s == []
    ensures m.Some? ==> m.value in s && forall x :: x in s ==> x <= m.value
  {
    if s == [] then None
    else
      var rest := Maximum(s[..|s| - 1]);
      var last := s[|s| - 1];
      assert s == s[..|s| - 1] + [last];
      if rest.Some? && rest.value >= last then rest else Some(last)
  }

  /** `data.map(d => d.date)`. */
  function DatesOf(data: seq<Sample>): (r: seq<int>)
    ensures |r| == |data| && forall i :: 0 <= i < |data| ==> r[i] == data[i].date
  {
    if data == [] then [] else DatesOf(data[..|data| - 1]) + [data[|data| - 1].date]
  }

  /** `data.map(d => d.value)`. */
  function ValuesOf(data: seq<Sample>): (r: seq<int>)
    ensures |r| == |data| && forall i :: 0 <= i < |data| ==> r[i] == data[i].value
  {
    if data == [] then [] else ValuesOf(data[..|data| - 1]) + [data[|data| - 1].value]
  }

  /** The x domain the data setter installs: `d3.extent` of the dates. */
  function DateDomain(data: seq<Sample>): (d: Domain)
    ensures d.lo.None? <==> data == []
    ensures d.hi.None? <==> data == []
    ensures d.lo.Some? ==> exists i :: 0 <= i < |data| && data[i].date == d.lo.value
    ensures d.hi.Some? ==> exists i :: 0 <= i < |data| && data[i].date == d.hi.value
    ensures d.lo.Some? ==> forall i :: 0 <= i < |data| ==> d.lo.value <= data[i].date <= d.hi.value
  {
    var dates := DatesOf(data);
    var d := Domain(Minimum(dates), Maximum(dates));
    assert forall i :: 0 <= i < |data| ==> dates[i] in dates;
    d
  }

  /** The y domain the data setter installs: zero up to `d3.max` of the values. */
  function ValueDomain(data: seq<Sample>): (d: Domain)
    ensures d.lo == Some(0)
    ensures d.hi.None? <==> data == []
    ensures d.hi.Some? ==> exists i :: 0 <= i < |data| && data[i].value == d.hi.value
    ensures d.hi.Some? ==> forall i :: 0 <= i < |data| ==> data[i].value <= d.hi.value
  {
    var values := ValuesOf(data);
    var d := Domain(Some(0), Maximum(values));
    assert forall i :: 0 <= i < |data| ==> values[i] in values;
    d
  }

  // ---------------------------------------------------------------------------
  // Dimensions and margins

  /** `$.extend(dimensions, update)`: supplied fields overwrite, missing ones are kept. */
  function Merge(d: Dimensions, u: DimensionsUpdate): (r: Dimensions)
    ensures u.width.None? ==> r.width == d.width
    ensures u.height.None? ==> r.height == d.height
    ensures u.width.Some? ==> r.width == u.width.value
    ensures u.height.Some? ==> r.height == u.height.value
  {
    Dimensions(
      if u.width.Some? then u.width.value else d.width,
      if u.height.Some? then u.height.value else d.height)
  }

  /** Width inside the left and right margins, which take 20 together. */
  function InnerWidth(d: Dimensions): (w: int)
    ensures w == d.width - 20
  {
    d.width - MarginLeft - MarginRight
  }

  /** Height inside the top and bottom margins, which take 20 together. */
  function InnerHeight(d: Dimensions): (h: int)
    ensures h == d.height - 20
  {
    d.height - MarginTop - MarginBottom
  }

  // ---------------------------------------------------------------------------
  // Selected range

  /** `selectedRangeChanged` as written: the `return true` inside the `forEach`
      callback only leaves the callback, so two set ranges of the same length
      are never reported as changed. */
  predicate SelectedRangeChanged(range: DateRange, current: DateRange)
    ensures SelectedRangeChanged(range, current) ==> range != current
  {
    if range.Unset? != current.Unset? then true
    else if range.Dates? && current.Dates? then
      if |range.times| != |current.times| then true
      else false
    else false
  }

  /** The comparison the comments in `selectedRangeChanged` describe: one set and
      one unset, different lengths, or some date that differs. */
  predicate RangeDiffers(range: DateRange, current: DateRange)
  {
    if range.Unset? != current.Unset? then true
    else if range.Dates? && current.Dates? then
      if |range.times| != |current.times| then true
      else exists i :: 0 <= i < |range.times| && range.times[i] != current.times[i]
    else false
  }

  /** The range held after the setter runs. */
  function StoredRange(current: DateRange, range: DateRange): (r: DateRange)
    ensures r == range || r == current
    ensures range.Unset? != current.Unset? ==> r == range
  {
    if SelectedRangeChanged(range, current) then range else current
  }

  /** Whether the setter moves the brush: only a stored, non-empty range is drawn. */
  predicate Redraws(current: DateRange, range: DateRange)
    ensures Redraws(current, range) <==>
      StoredRange(current, range) == range && range != current && range.Dates? && |range.times| > 0
  {
    SelectedRangeChanged(range, current) && range.Dates? && |range.times| > 0
  }

  /** The held range if the setter compared the dates as its comments say. */
  function IntendedStoredRange(current: DateRange, range: DateRange): DateRange
  {
    if RangeDiffers(range, current) then range else current
  }

  /** Whether the setter would move the brush with the intended comparison. */
  predicate IntendedRedraws(current: DateRange, range: DateRange)
  {
    RangeDiffers(range, current) && range.Dates? && |range.times| > 0
  }

  /** The extent of d3's x brush after a sweep: two dates, the first not after the second. */
  datatype Extent = Extent(lo: int, hi: int)

  type BrushExtent = e: Extent | e.lo <= e.hi witness Extent(0, 0)

  /** The brush holds the ends of a sweep in order, whichever way it went. */
  function SweptExtent(from: int, to: int): (e: BrushExtent)
    ensures (e.lo == from && e.hi == to) || (e.lo == to && e.hi == from)
  {
    if from <= to then Extent(from, to) else Extent(to, from)
  }

  /** `brush.empty() ? [] : brush.extent()`, the payload of `rangeSelected`:
      a brush of no width is empty. */
  function RangeSelectedPayload(e: BrushExtent): (p: seq<int>)
    ensures p == [] || (|p| == 2 && p[0] < p[1])
    ensures p == [] <==> e.lo == e.hi
    ensures p != [] ==> p[0] == e.lo && p[1] == e.hi
  {
    if e.lo == e.hi then [] else [e.lo, e.hi]
  }

  // ---------------------------------------------------------------------------
  // The visual's state

  class TimeScale {
    /** `_data`: `None` until the data setter first runs. */
    var data: Option<seq<Sample>>
    /** `_dimensions`. */
    var dimensions: Dimensions
    /** `_range`. */
    var range: DateRange
    /** The domains and ranges of the x (time) and y (linear) scales. */
    var xDomain: Domain
    var yDomain: Domain
    var xRange: Span
    var yRange: Span
    /** The dates last handed to the brush: by the selectedRange setter, or the
        ordered ends of the user's last sweep. */
    var brushExtent: seq<int>
    /** How many times the brush has been redrawn for a new selection. */
    ghost var redraws: nat

    /** Starts at 500x500, merges the given dimensions and lays the scales out. */
    constructor(initial: DimensionsUpdate)
      ensures data == None && range == Unset
      ensures dimensions == Merge(InitialDimensions, initial)
      ensures xDomain == Domain(None, None) && yDomain == Domain(Some(0), Some(1))
      ensures xRange == Span(0, InnerWidth(dimensions)) && yRange == Span(0, InnerHeight(dimensions))
      ensures brushExtent == [] && redraws == 0
    {
      data := None;
      dimensions := InitialDimensions;
      range := Unset;
      xDomain := Domain(None, None);
      yDomain := Domain(Some(0), Some(1));
      xRange := Span(0, 1);
      yRange := Span(0, 1);
      brushExtent := [];
      redraws := 0;
      new;
      SetDimensions(initial);
    }

    /** Sets both scale ranges from the inner size. */
    method ResizeElements()
      modifies this
      ensures xRange == Span(0, InnerWidth(dimensions)) && yRange == Span(0, InnerHeight(dimensions))
      ensures data == old(data) && dimensions == old(dimensions) && range == old(range)
      ensures xDomain == old(xDomain) && yDomain == old(yDomain)
      ensures brushExtent == old(brushExtent) && redraws == old(redraws)
    {
      var width := dimensions.width - MarginLeft - MarginRight;
      var height := dimensions.height - MarginTop - MarginBottom;
      xRange := Span(0, width);
      yRange := Span(0, height);
    }

    /** The data setter: stores the samples, fits both domains to them and resizes. */
    method SetData(samples: seq<Sample>)
      modifies this
      ensures data == Some(samples)
      ensures xDomain == DateDomain(samples) && yDomain == ValueDomain(samples)
      ensures xRange == Span(0, InnerWidth(dimensions)) && yRange == Span(0, InnerHeight(dimensions))
      ensures dimensions == old(dimensions) && range == old(range)
      ensures brushExtent == old(brushExtent) && redraws == old(redraws)
    {
      data := Some(samples);
      xDomain := DateDomain(samples);
      yDomain := ValueDomain(samples);
      ResizeElements();
    }

    /** The dimensions setter: merges the supplied fields and resizes. */
    method SetDimensions(update: DimensionsUpdate)
      modifies this
      ensures dimensions == Merge(old(dimensions), update)
      ensures xRange == Span(0, InnerWidth(dimensions)) && yRange == Span(0, InnerHeight(dimensions))
      ensures data == old(data) && range == old(range)
      ensures xDomain == old(xDomain) && yDomain == old(yDomain)
      ensures brushExtent == old(brushExtent) && redraws == old(redraws)
    {
      var width := dimensions.width;
      var height := dimensions.height;
      if update.width.Some? {
        width := update.width.value;
      }
      if update.height.Some? {
        height := update.height.value;
      }
      dimensions := Dimensions(width, height);
      ResizeElements();
    }

    /** The selectedRange setter: stores the range when the check reports a change
        and moves the brush to it when it is non-empty. */
    method SetSelectedRange(newRange: DateRange)
      modifies this
      ensures range == StoredRange(old(range), newRange)
      ensures Redraws(old(range), newRange) ==> brushExtent == newRange.times && redraws == old(redraws) + 1
      ensures !Redraws(old(range), newRange) ==> brushExtent == old(brushExtent) && redraws == old(redraws)
      ensures data == old(data) && dimensions == old(dimensions)
      ensures xDomain == old(xDomain) && yDomain == old(yDomain)
      ensures xRange == old(xRange) && yRange == old(yRange)
    {
      var changed := SelectedRangeChanged(newRange, range);
      if changed {
        range := newRange;
        if newRange.Dates? && |newRange.times| > 0 {
          brushExtent := newRange.times;
          redraws := redraws + 1;
        }
      }
    }

    /** The user sweeps the brush from `from` to `to`; the debounced `brushed`
        handler then raises `rangeSelected` with `payload`. */
    method Sweep(from: int, to: int) returns (payload: seq<int>)
      modifies this
      ensures brushExtent == [SweptExtent(from, to).lo, SweptExtent(from, to).hi]
      ensures payload == RangeSelectedPayload(SweptExtent(from, to))
      ensures payload == [] <==> from == to
      ensures payload != [] ==> payload == brushExtent && payload[0] < payload[1]
      ensures data == old(data) && dimensions == old(dimensions) && range == old(range)
      ensures xDomain == old(xDomain) && yDomain == old(yDomain)
      ensures xRange == old(xRange) && yRange == old(yRange) && redraws == old(redraws)
    {
      var extent := SweptExtent(from, to);
      brushExtent := [extent.lo, extent.hi];
      payload := RangeSelectedPayload(extent);
    }
  }
}
