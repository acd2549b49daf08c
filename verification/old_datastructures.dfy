/**
 * The earlier version of the composition data: the element records and the
 * conversions between durations and bar heights, for a bar of 1000 pixels
 * that stands for two minutes.
 */
module OldDataStructures {

  /** Height of the composition bar in pixels. */
  const BarHeightPx: real := 1000.0
  /** The duration the full bar stands for, in ms. */
  const MaxCompositionDuration: real := 120000.0

  /** The records of the composition: only a Box carries a coordinate and a dataset index. */
  datatype Element =
    | Box(x: real, y: real, z: real, duration: real, arrayIndex: int)
    | Meander(duration: real)
    | Crossfade(duration: real)

  /** `timesToPxHeight`: a duration in ms as a height in pixels. */
  function TimesToPxHeight(timeMs: real): real
  {
    timeMs * (BarHeightPx / MaxCompositionDuration)
  }

  /** `pxHeightToTimesMs`: a height in pixels as a duration in ms. */
  function PxHeightToTimesMs(heightPx: real): real
  {
    heightPx * MaxCompositionDuration / BarHeightPx
  }

  /** The two conversions undo each other, in both orders. */
  lemma ConversionRoundTrip(t: real, h: real)
    ensures PxHeightToTimesMs(TimesToPxHeight(t)) == t
    ensures TimesToPxHeight(PxHeightToTimesMs(h)) == h
  {
    assert TimesToPxHeight(t) == t / 120.0;
    assert PxHeightToTimesMs(h) == h * 120.0;
  }

  /** The longest composition fills the bar exactly, and the full bar is the longest composition. */
  lemma MaxDurationFillsBar()
    ensures TimesToPxHeight(MaxCompositionDuration) == BarHeightPx
    ensures PxHeightToTimesMs(BarHeightPx) == MaxCompositionDuration
  {
  }

  /** Both conversions map 0 to 0 and are strictly increasing. */
  lemma ConversionsMonotone(a: real, b: real)
    ensures TimesToPxHeight(0.0) == 0.0 && PxHeightToTimesMs(0.0) == 0.0
    ensures a < b ==> TimesToPxHeight(a) < TimesToPxHeight(b)
    ensures a < b ==> PxHeightToTimesMs(a) < PxHeightToTimesMs(b)
  {
    assert TimesToPxHeight(b) - TimesToPxHeight(a) == (b - a) / 120.0;
    assert PxHeightToTimesMs(b) - PxHeightToTimesMs(a) == (b - a) * 120.0;
  }
}
