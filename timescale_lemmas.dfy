/** Properties of the time-scale state: extents that ignore sample order, the
    dimensions merge, the margin arithmetic, and the selected-range rule as
    written set against the comparison it was meant to make. */
module TimeScaleLemmas {
  import opened JsValues
  import opened TimeScaleState

  // ---------------------------------------------------------------------------
  // Extents

  /** Lists with the same elements have the same least and greatest element. */
  lemma ExtremesIgnoreOrder(s: seq<int>, t: seq<int>)
    requires forall x :: x in s <==> x in t
    ensures Minimum(s) == Minimum(t) && Maximum(s) == Maximum(t)
  {
    var ms, mt := Minimum(s), Minimum(t);
    if ms.Some? {
      assert ms.value <= mt.value && mt.value <= ms.value;
    }
    var xs, xt := Maximum(s), Maximum(t);
    if xs.Some? {
      assert xs.value <= xt.value && xt.value <= xs.value;
    }
  }

  /** Reordering the samples leaves both domains as they were. */
  lemma DomainsIgnoreOrder(data: seq<Sample>, other: seq<Sample>)
    requires multiset(data) == multiset(other)
    ensures DateDomain(data) == DateDomain(other)
    ensures ValueDomain(data) == ValueDomain(other)
  {
    forall x ensures x in DatesOf(data) <==> x in DatesOf(other) {
      if x in DatesOf(data) {
        SameDatesAvailable(data, other, x);
      }
      if x in DatesOf(other) {
        SameDatesAvailable(other, data, x);
      }
    }
    ExtremesIgnoreOrder(DatesOf(data), DatesOf(other));
    forall x ensures x in ValuesOf(data) <==> x in ValuesOf(other) {
      if x in ValuesOf(data) {
        SameValuesAvailable(data, other, x);
      }
      if x in ValuesOf(other) {
        SameValuesAvailable(other, data, x);
      }
    }
    ExtremesIgnoreOrder(ValuesOf(data), ValuesOf(other));
  }

  lemma SameDatesAvailable(data: seq<Sample>, other: seq<Sample>, x: int)
    requires multiset(data) == multiset(other)
    requires x in DatesOf(data)
    ensures x in DatesOf(other)
  {
    var i :| 0 <= i < |data| && DatesOf(data)[i] == x;
    assert data[i] in multiset(other);
    var j :| 0 <= j < |other| && other[j] == data[i];
    assert DatesOf(other)[j] == x;
  }

  lemma SameValuesAvailable(data: seq<Sample>, other: seq<Sample>, x: int)
    requires multiset(data) == multiset(other)
    requires x in ValuesOf(data)
    ensures x in ValuesOf(other)
  {
    var i :| 0 <= i < |data| && ValuesOf(data)[i] == x;
    assert data[i] in multiset(other);
    var j :| 0 <= j < |other| && other[j] == data[i];
    assert ValuesOf(other)[j] == x;
  }

  // ---------------------------------------------------------------------------
  // Dimensions

  /** The update whose supplied fields are those of `second`, falling back to `first`. */
  function Override(first: DimensionsUpdate, second: DimensionsUpdate): DimensionsUpdate
  {
    DimensionsUpdate(
      if second.width.Some? then second.width else first.width,
      if second.height.Some? then second.height else first.height)
  }

  /** Two merges in a row are one merge of the combined update, and repeating
      an update changes nothing; an empty update is a no-op. */
  lemma MergeComposes(d: Dimensions, u: DimensionsUpdate, v: DimensionsUpdate)
    ensures Merge(Merge(d, u), v) == Merge(d, Override(u, v))
    ensures Merge(Merge(d, u), u) == Merge(d, u)
    ensures Merge(d, DimensionsUpdate(None, None)) == d
  {
  }

  // ---------------------------------------------------------------------------
  // Selected range

  /** The intended comparison reports a change exactly when the ranges differ. */
  lemma RangeDiffersIff(range: DateRange, current: DateRange)
    ensures RangeDiffers(range, current) <==> range != current
  {
    if range.Dates? && current.Dates? && |range.times| == |current.times| {
      if range != current {
        assert range.times != current.times;
        var i :| 0 <= i < |range.times| && range.times[i] != current.times[i];
      } else {
        assert forall i :: 0 <= i < |range.times| ==> range.times[i] == current.times[i];
      }
    }
  }

  /** What the setter reports as a change, the intended comparison reports too. */
  lemma ChangedIsSound(range: DateRange, current: DateRange)
    ensures SelectedRangeChanged(range, current) ==> RangeDiffers(range, current)
  {
    RangeDiffersIff(range, current);
  }

  /** The changes the setter misses are exactly the set ranges of equal length
      whose dates differ. */
  lemma MissedChanges(range: DateRange, current: DateRange)
    ensures RangeDiffers(range, current) && !SelectedRangeChanged(range, current)
        <==> range.Dates? && current.Dates? && |range.times| == |current.times| && range != current
  {
    RangeDiffersIff(range, current);
  }

  /** Moving a two-date selection to two other dates is ignored. */
  lemma EqualLengthMoveIgnored()
    ensures RangeDiffers(Dates([3, 4]), Dates([1, 2]))
    ensures !SelectedRangeChanged(Dates([3, 4]), Dates([1, 2]))
    ensures StoredRange(Dates([1, 2]), Dates([3, 4])) == Dates([1, 2])
    ensures !Redraws(Dates([1, 2]), Dates([3, 4]))
  {
    assert Dates([3, 4]).times[0] != Dates([1, 2]).times[0];
  }

  /** When exactly one of the new and the held range is unset, the new one is stored. */
  lemma OneUnsetStores(current: DateRange, range: DateRange)
    requires range.Unset? != current.Unset?
    ensures StoredRange(current, range) == range
    ensures Redraws(current, range) <==> range.Dates? && |range.times| > 0
  {
  }

  /** With both ranges set, a different length is stored and an equal length
      leaves the held range and the brush alone. */
  lemma BothSetByLength(current: DateRange, range: DateRange)
    requires range.Dates? && current.Dates?
    ensures |range.times| != |current.times| ==> StoredRange(current, range) == range
    ensures |range.times| != |current.times| ==> (Redraws(current, range) <==> |range.times| > 0)
    ensures |range.times| == |current.times| ==> StoredRange(current, range) == current
    ensures |range.times| == |current.times| ==> !Redraws(current, range)
  {
  }

  /** A redraw only follows a store of a non-empty range that differs from the
      held one; clearing the selection or setting `[]` never redraws. */
  lemma RedrawNeedsNonEmptyStore(current: DateRange, range: DateRange)
    ensures Redraws(current, range) ==>
      StoredRange(current, range) == range && range != current && |range.times| > 0
    ensures range == Unset || range == Dates([]) ==> !Redraws(current, range)
  {
    ChangedIsSound(range, current);
  }

  /** Setting the same range a second time neither stores nor redraws. */
  lemma SecondSetIsNoop(current: DateRange, range: DateRange)
    ensures StoredRange(StoredRange(current, range), range) == StoredRange(current, range)
    ensures !Redraws(StoredRange(current, range), range)
  {
  }

  /** With the intended comparison the setter always ends holding the new range,
      redraws exactly when a different non-empty range arrives, and agrees with
      the setter as written except on the missed equal-length changes. */
  lemma IntendedSetterStores(current: DateRange, range: DateRange)
    ensures IntendedStoredRange(current, range) == range
    ensures IntendedRedraws(current, range) <==> range != current && range.Dates? && |range.times| > 0
    ensures IntendedStoredRange(current, range) != StoredRange(current, range)
        <==> RangeDiffers(range, current) && !SelectedRangeChanged(range, current)
  {
    RangeDiffersIff(range, current);
  }

  /** The payload of a sweep does not depend on its direction: it is empty
      exactly when the sweep has no width, and otherwise the earlier date
      followed by the later one. */
  lemma PayloadFollowsSweep(from: int, to: int)
    ensures RangeSelectedPayload(SweptExtent(from, to)) == RangeSelectedPayload(SweptExtent(to, from))
    ensures from == to ==> RangeSelectedPayload(SweptExtent(from, to)) == []
    ensures from < to ==> RangeSelectedPayload(SweptExtent(from, to)) == [from, to]
    ensures to < from ==> RangeSelectedPayload(SweptExtent(from, to)) == [to, from]
  {
  }
}
