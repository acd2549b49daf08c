/**
 * The composition bar of the web app: an ordered list of Box, Crossfade and
 * Meander elements, each with a duration in milliseconds, kept side by side
 * with the list of drawing papers that show them. Elements are appended
 * under a total-duration cap, removed, dragged in front of another element,
 * resized, scheduled for playback, and (for meanders between two boxes)
 * given the latent path that is drawn for them.
 */
module Composition {
  import opened JsValues
  import opened Points

  /** Height of the composition bar in pixels. */
  const BarHeightPx: real := 1000.0
  /** Duration of a newly created element, in ms. */
  const BasicElementT: real := 5000.0
  /** Longest duration a resize can reach, in ms. */
  const MaxT: real := 10000.0
  /** Shortest duration a resize can reach, in ms. */
  const MinT: real := 1000.0
  /** The total duration the bar accepts before it counts as full, in ms. */
  const MaxCompositionDuration: real := 60000.0
  /** How long after the last element playback is stopped, in ms. */
  const StopDelay: real := 100.0

  /** `timesToPxHeight`: a duration in ms as a height in pixels. */
  function TimesToPxHeight(timeMs: real): real
  {
    timeMs * (BarHeightPx / MaxCompositionDuration / 2.0)
  }

  /** `pxHeightToTimesMs`: a height in pixels as a duration in ms. */
  function PxHeightToTimesMs(heightPx: real): real
  {
    heightPx * MaxCompositionDuration / BarHeightPx * 2.0
  }

  /** The two conversions undo each other, in both orders. */
  lemma ConversionRoundTrip(t: real, h: real)
    ensures PxHeightToTimesMs(TimesToPxHeight(t)) == t
    ensures TimesToPxHeight(PxHeightToTimesMs(h)) == h
  {
    assert TimesToPxHeight(t) == t / 120.0;
    assert PxHeightToTimesMs(h) == h * 120.0;
  }

  /** Both conversions map 0 to 0 and preserve strict order. */
  lemma ConversionsMonotone(a: real, b: real)
    ensures TimesToPxHeight(0.0) == 0.0 && PxHeightToTimesMs(0.0) == 0.0
    ensures a < b ==> TimesToPxHeight(a) < TimesToPxHeight(b)
    ensures a < b ==> PxHeightToTimesMs(a) < PxHeightToTimesMs(b)
  {
    assert TimesToPxHeight(b) - TimesToPxHeight(a) == (b - a) / 120.0;
    assert PxHeightToTimesMs(b) - PxHeightToTimesMs(a) == (b - a) * 120.0;
  }

  /**
   * One element of the composition. A Box holds a latent coordinate and the
   * dataset index of the point it was created from; a Meander is given the
   * coordinates of its drawn path once the path is rendered.
   */
  datatype Element =
    | Box(x: real, y: real, z: real, duration: real, arrayIndex: int)
    | Crossfade(duration: real)
    | Meander(duration: real, meanderComponents: Option<seq<Coord>>)

  /** The latent coordinate of a Box. */
  function BoxCoord(e: Element): Coord
    requires e.Box?
  {
    Coord(e.x, e.y, e.z)
  }

  /** `calculateCurrentCompostionTime` as a value: the sum of all durations. */
  function TotalDuration(s: seq<Element>): real
  {
    if |s| == 0 then 0.0 else TotalDuration(s[..|s| - 1]) + s[|s| - 1].duration
  }

  /** The playback start of element `i`: the durations of the elements before it. */
  function PrefixDuration(s: seq<Element>, i: nat): real
    requires i <= |s|
  {
    TotalDuration(s[..i])
  }

  predicate NonNegDurations(s: seq<Element>)
  {
    forall j :: 0 <= j < |s| ==> s[j].duration >= 0.0
  }

  /** The total of two lists joined is the sum of their totals. */
  lemma {:induction false} TotalAppend(s: seq<Element>, t: seq<Element>)
    ensures TotalDuration(s + t) == TotalDuration(s) + TotalDuration(t)
    decreases |t|
  {
    if |t| == 0 {
      assert s + t == s;
    } else {
      assert (s + t)[..|s + t| - 1] == s + t[..|t| - 1];
      TotalAppend(s, t[..|t| - 1]);
    }
  }

  /** With no negative duration, a longer prefix never starts earlier. */
  lemma {:induction false} PrefixMonotone(s: seq<Element>, i: nat, j: nat)
    requires i <= j <= |s| && NonNegDurations(s)
    ensures 0.0 <= PrefixDuration(s, i) <= PrefixDuration(s, j)
    decreases j
  {
    if j > 0 {
      assert s[..j][..j - 1] == s[..j - 1];
      if i == j {
        PrefixMonotone(s, j - 1, j - 1);
      } else {
        PrefixMonotone(s, i, j - 1);
      }
    }
  }

  // ---------------------------------------------------------------------
  // In-place splices of the element and paper lists
  // ---------------------------------------------------------------------

  /** `splice(i, 1)`: the list without its element at `i`. */
  function RemoveAt<T>(s: seq<T>, i: int): (r: seq<T>)
    requires 0 <= i < |s|
    ensures |r| == |s| - 1
  {
    s[..i] + s[i + 1..]
  }

  /** `splice(i, 0, x)`: the list with `x` inserted in front of position `i`. */
  function InsertAt<T>(s: seq<T>, i: int, x: T): (r: seq<T>)
    requires 0 <= i <= |s|
    ensures |r| == |s| + 1
  {
    s[..i] + [x] + s[i..]
  }

  /** Removing one element takes exactly its duration off the total. */
  lemma RemoveAtTotal(s: seq<Element>, i: int)
    requires 0 <= i < |s|
    ensures TotalDuration(RemoveAt(s, i)) == TotalDuration(s) - s[i].duration
  {
    TotalSplit(s, i);
    TotalAppend(s[..i], s[i + 1..]);
  }

  /** The total is the duration before `i`, plus element `i`'s, plus the duration after it. */
  lemma TotalSplit(s: seq<Element>, i: int)
    requires 0 <= i < |s|
    ensures TotalDuration(s) == TotalDuration(s[..i]) + s[i].duration + TotalDuration(s[i + 1..])
  {
    assert s == s[..i] + s[i..];
    TotalAppend(s[..i], s[i..]);
    assert s[i..] == [s[i]] + s[i + 1..];
    TotalCons(s[i], s[i + 1..]);
  }

  /** A list with one element in front lasts that element's duration longer. */
  lemma TotalCons(e: Element, t: seq<Element>)
    ensures TotalDuration([e] + t) == e.duration + TotalDuration(t)
  {
    TotalAppend([e], t);
    assert [e][..0] == [];
  }

  /** Removing one element takes exactly that element out of the multiset. */
  lemma RemoveAtMultiset<T>(s: seq<T>, i: int)
    requires 0 <= i < |s|
    ensures multiset(s) == multiset(RemoveAt(s, i)) + multiset{s[i]}
  {
    assert s == s[..i] + [s[i]] + s[i + 1..];
  }

  /**
   * The reordering `drop` applies to both lists when element `d` is dropped
   * on element `t`: remove-then-insert when `d` lies after `t`, otherwise
   * insert-then-remove; nothing moves when `d == t`.
   */
  function DropOrder<T>(s: seq<T>, d: int, t: int): (r: seq<T>)
    requires 0 <= d < |s| && 0 <= t < |s|
    ensures |r| == |s|
  {
    if d == t then s
    else if d > t then InsertAt(RemoveAt(s, d), t, s[d])
    else RemoveAt(InsertAt(s, t, s[d]), d)
  }

  /** The position in the old list that ends up at position `k` after `DropOrder(_, d, t)`. */
  function DropSource(d: int, t: int, k: int): int
  {
    if d == t then k
    else if d > t then (if k < t then k else if k == t then d else if k <= d then k - 1 else k)
    else (if k < d then k else if k < t - 1 then k + 1 else if k == t - 1 then d else k)
  }

  /**
   * `DropOrder` is one and the same index permutation whatever the list
   * holds, so applying it to the elements and to their papers keeps each
   * element with its own paper.
   */
  lemma DropIndex<T>(s: seq<T>, d: int, t: int, k: int)
    requires 0 <= d < |s| && 0 <= t < |s| && 0 <= k < |s|
    ensures 0 <= DropSource(d, t, k) < |s|
    ensures DropOrder(s, d, t)[k] == s[DropSource(d, t, k)]
  {
    if d > t {
      var u := RemoveAt(s, d);
      assert DropOrder(s, d, t) == u[..t] + [s[d]] + u[t..];
      if k > t {
        assert DropOrder(s, d, t)[k] == u[k - 1];
      }
    } else if d < t {
      var u := InsertAt(s, t, s[d]);
      assert DropOrder(s, d, t) == u[..d] + u[d + 1..];
      if k >= d {
        assert DropOrder(s, d, t)[k] == u[k + 1];
      }
    }
  }

  /**
   * After a drop of `d` on a different `t`, the dragged element sits
   * immediately before the element it was dropped on, the others keep their
   * relative order, and nothing is lost or duplicated.
   */
  lemma DropMovesBefore<T>(s: seq<T>, d: int, t: int)
    requires 0 <= d < |s| && 0 <= t < |s| && d != t
    ensures var p := if d > t then t else t - 1;
      0 <= p < |s| - 1 && DropOrder(s, d, t)[p] == s[d] && DropOrder(s, d, t)[p + 1] == s[t] &&
      RemoveAt(DropOrder(s, d, t), p) == RemoveAt(s, d)
    ensures multiset(DropOrder(s, d, t)) == multiset(s)
  {
    var r := DropOrder(s, d, t);
    var p := if d > t then t else t - 1;
    DropIndex(s, d, t, p);
    DropIndex(s, d, t, p + 1);
    DropKeepsOthers(s, d, t, p);
    RemoveAtMultiset(r, p);
    RemoveAtMultiset(s, d);
  }

  /** Taking the dragged element out again gives the list without it, in its original order. */
  lemma DropKeepsOthers<T>(s: seq<T>, d: int, t: int, p: int)
    requires 0 <= d < |s| && 0 <= t < |s| && d != t
    requires p == if d > t then t else t - 1
    ensures 0 <= p < |s| - 1
    ensures RemoveAt(DropOrder(s, d, t), p) == RemoveAt(s, d)
  {
    var r := DropOrder(s, d, t);
    forall k | 0 <= k < |s| - 1
      ensures RemoveAt(r, p)[k] == RemoveAt(s, d)[k]
    {
      if k < p {
        DropIndex(s, d, t, k);
      } else {
        DropIndex(s, d, t, k + 1);
      }
    }
  }

  /** A drop introduces no negative duration. */
  lemma DropNonNeg(s: seq<Element>, d: int, t: int)
    requires 0 <= d < |s| && 0 <= t < |s| && NonNegDurations(s)
    ensures NonNegDurations(DropOrder(s, d, t))
  {
    forall k | 0 <= k < |s| {
      DropIndex(s, d, t, k);
    }
  }

  /** A drop changes neither the total duration nor the number of elements. */
  lemma DropTotal(s: seq<Element>, d: int, t: int)
    requires 0 <= d < |s| && 0 <= t < |s|
    ensures TotalDuration(DropOrder(s, d, t)) == TotalDuration(s)
  {
    if d != t {
      DropMovesBefore(s, d, t);
      var p := if d > t then t else t - 1;
      RemoveAtTotal(DropOrder(s, d, t), p);
      RemoveAtTotal(s, d);
    }
  }

  // ---------------------------------------------------------------------
  // Transitions, playback and the timeline cursor
  // ---------------------------------------------------------------------

  /** `s[j] instanceof Box`; a read past either end is `undefined`, which is no Box. */
  predicate IsBox(s: seq<Element>, j: int)
  {
    0 <= j < |s| && s[j].Box?
  }

  /** A transition at `i` has a Box on both sides and is not the first element. */
  predicate BetweenBoxes(s: seq<Element>, i: int)
  {
    i != 0 && IsBox(s, i - 1) && IsBox(s, i + 1)
  }

  /** What `playBox(n)` does with element `n`. */
  datatype PlayAction =
    | PlayBoxSound        // a Box: loop it, or play it during playback
    | PlayTransition      // a Crossfade or Meander between two Boxes: play it
    | RefuseTransition    // a Crossfade or Meander elsewhere: only a message
    | NoAction            // a transition in first position: no branch applies

  /**
   * `playBox(n)`: Boxes always play; a Crossfade or Meander plays exactly
   * when it stands between two Boxes, and is otherwise refused, except in
   * first position, where nothing happens at all.
   */
  function PlayBox(s: seq<Element>, n: int): (r: PlayAction)
    requires 0 <= n < |s|
    ensures r == PlayBoxSound <==> s[n].Box?
    ensures r == PlayTransition <==> !s[n].Box? && BetweenBoxes(s, n)
    ensures r == NoAction <==> !s[n].Box? && n == 0
  {
    if s[n].Box? then PlayBoxSound
    else if n != 0 && s[n].Crossfade? then
      (if IsBox(s, n - 1) && IsBox(s, n + 1) then PlayTransition else RefuseTransition)
    else if n != 0 && s[n].Meander? then
      (if IsBox(s, n - 1) && IsBox(s, n + 1) then PlayTransition else RefuseTransition)
    else NoAction
  }

  /** The timer offsets of `play`: element `i` starts after all elements before it. */
  function StartTimes(s: seq<Element>): (r: seq<real>)
    ensures |r| == |s|
  {
    seq(|s|, i requires 0 <= i < |s| => PrefixDuration(s, i))
  }

  /**
   * The schedule is gapless: the first element starts at 0, each element
   * starts when the one before it ends, and the last one ends at the total;
   * with no negative duration the start times never decrease.
   */
  lemma ScheduleTiles(s: seq<Element>, i: nat)
    requires i < |s|
    ensures StartTimes(s)[0] == 0.0
    ensures i + 1 < |s| ==> StartTimes(s)[i + 1] == StartTimes(s)[i] + s[i].duration
    ensures i + 1 == |s| ==> StartTimes(s)[i] + s[i].duration == TotalDuration(s)
    ensures NonNegDurations(s) && i + 1 < |s| ==> StartTimes(s)[i] <= StartTimes(s)[i + 1]
  {
    assert s[..i + 1][..i] == s[..i];
    if i + 1 == |s| {
      assert s[..i + 1] == s;
    }
    if NonNegDurations(s) && i + 1 < |s| {
      PrefixMonotone(s, i, i + 1);
    }
  }

  /** The timeline cursor's pixel position for a point in time. */
  function CursorPx(timeMs: real, barLengthPx: real): real
  {
    timeMs * barLengthPx / MaxCompositionDuration
  }

  /** The length of the timeline in pixels for a window height. */
  function TimelineLength(innerHeight: real): real
  {
    (innerHeight - (90.0 + 60.0 + 20.0)) * 0.95
  }

  /** The cursor sweep of element `n` ends exactly where the sweep of element `n + 1` begins. */
  lemma CursorSweepsTile(s: seq<Element>, n: nat, bar: real)
    requires n + 1 < |s|
    ensures CursorPx(PrefixDuration(s, n) + s[n].duration, bar) == CursorPx(PrefixDuration(s, n + 1), bar)
  {
    ScheduleTiles(s, n);
  }

  // ---------------------------------------------------------------------
  // Resize handlers
  // ---------------------------------------------------------------------

  /** The Box `move` handler accepts a new circle radius strictly inside these bounds. */
  predicate BoxRadiusAccepted(r: real)
  {
    r < TimesToPxHeight(MaxT) / 2.0 && r > TimesToPxHeight(MinT) / 2.0
  }

  /** The Crossfade and Meander `move` handlers accept a handle height strictly inside these bounds. */
  predicate HandleAccepted(y: real)
  {
    y < TimesToPxHeight(MaxT) && y > TimesToPxHeight(MinT)
  }

  /** The radius of a newly drawn Box circle: half the height of a basic element. */
  function InitialBoxRadius(): real
  {
    TimesToPxHeight(BasicElementT) / 2.0
  }

  /** The Box `up` handler as written: the new duration is the radius, converted to ms. */
  function BoxReleaseDurationAsWritten(radius: real): real
  {
    PxHeightToTimesMs(radius)
  }

  /**
   * As written, releasing a Box gives half the duration its circle shows: a
   * Box released without a resize drops from 5000 ms to 2500 ms, and every
   * accepted radius gives a duration between 500 and 5000 ms instead of
   * between `MinT` and `MaxT`.
   */
  lemma BoxReleaseAsWrittenHalves(radius: real)
    ensures BoxReleaseDurationAsWritten(InitialBoxRadius()) == BasicElementT / 2.0
    ensures BoxRadiusAccepted(radius) ==> MinT / 2.0 < BoxReleaseDurationAsWritten(radius) < MaxT / 2.0
  {
    ConversionRoundTrip(BasicElementT, 0.0);
    ConversionRoundTrip(MaxT, 0.0);
    ConversionRoundTrip(MinT, 0.0);
  }

  /** The Box `up` handler as intended: the circle's diameter, converted to ms. */
  function BoxReleaseDuration(radius: real): real
  {
    PxHeightToTimesMs(2.0 * radius)
  }

  /**
   * Releasing a Box without a resize keeps its duration, and every accepted
   * radius gives a duration strictly between `MinT` and `MaxT`.
   */
  lemma BoxReleaseWithinBounds(radius: real)
    ensures BoxReleaseDuration(InitialBoxRadius()) == BasicElementT
    ensures BoxRadiusAccepted(radius) ==> MinT < BoxReleaseDuration(radius) < MaxT
  {
    ConversionRoundTrip(BasicElementT, 0.0);
    ConversionRoundTrip(MaxT, 0.0);
    ConversionRoundTrip(MinT, 0.0);
    ConversionsMonotone(MinT, 2.0 * radius);
    ConversionsMonotone(2.0 * radius, MaxT);
  }

  /** A handle released at an accepted height gives a duration strictly between `MinT` and `MaxT`. */
  lemma HandleReleaseWithinBounds(y: real)
    requires HandleAccepted(y)
    ensures MinT < PxHeightToTimesMs(y) < MaxT
  {
    ConversionRoundTrip(MaxT, y);
    ConversionRoundTrip(MinT, y);
  }

  // ---------------------------------------------------------------------
  // Meander paths attached by renderPath / storeMeander
  // ---------------------------------------------------------------------

  /** `sendDrawMeander` between two latent coordinates, as seen from the composition bar. */
  type MeanderDrawer = (Coord, Coord) -> seq<Coord>

  /** `renderPath` draws a meander path for a Meander standing between two Boxes. */
  predicate RenderedMeander(s: seq<Element>, i: int)
  {
    0 <= i < |s| && s[i].Meander? && BetweenBoxes(s, i)
  }

  /** The path drawn for the Meander at `i`: from the Box before it to the Box after it. */
  function PathAt(s: seq<Element>, draw: MeanderDrawer, i: int): seq<Coord>
    requires RenderedMeander(s, i)
  {
    draw(BoxCoord(s[i - 1]), BoxCoord(s[i + 1]))
  }

  /** The list with the paths of the rendered Meanders before position `upTo` attached to them. */
  function RenderUpTo(s: seq<Element>, draw: MeanderDrawer, upTo: int): (r: seq<Element>)
    ensures |r| == |s| && forall j :: 0 <= j < |s| ==> r[j].duration == s[j].duration
  {
    seq(|s|, j requires 0 <= j < |s| =>
      if j < upTo && RenderedMeander(s, j) then s[j].(meanderComponents := Some(PathAt(s, draw, j))) else s[j])
  }

  /**
   * The composition after `renderPath` as intended: every Meander between
   * two Boxes holds the path drawn between those Boxes, and nothing else changes.
   */
  function Rendered(s: seq<Element>, draw: MeanderDrawer): (r: seq<Element>)
    ensures |r| == |s| && TotalDuration(r) == TotalDuration(s)
    ensures forall j :: RenderedMeander(s, j) ==>
      r[j] == Meander(s[j].duration, Some(draw(BoxCoord(s[j - 1]), BoxCoord(s[j + 1]))))
    ensures forall j :: 0 <= j < |s| && !RenderedMeander(s, j) ==> r[j] == s[j]
  {
    var r := RenderUpTo(s, draw, |s|);
    SameDurationsTotal(r, s);
    r
  }

  /** Before the rendering loop has passed any position, the list is unchanged. */
  lemma RenderUpToNone(s: seq<Element>, draw: MeanderDrawer)
    ensures RenderUpTo(s, draw, 0) == s
  {
    var e := RenderUpTo(s, draw, 0);
    assert forall j :: 0 <= j < |s| ==> e[j] == s[j];
  }

  /**
   * One step of the rendering loop: position `i` is still untouched, it is
   * rendered exactly when it was in the original list, its neighbouring
   * Boxes are the original ones, and the step attaches at most its own path.
   */
  lemma RenderUpToStep(s: seq<Element>, draw: MeanderDrawer, i: int)
    requires 0 <= i < |s|
    ensures var e := RenderUpTo(s, draw, i);
      e[i] == s[i] && (RenderedMeander(e, i) <==> RenderedMeander(s, i)) &&
      (RenderedMeander(s, i) ==>
         BoxCoord(e[i - 1]) == BoxCoord(s[i - 1]) && BoxCoord(e[i + 1]) == BoxCoord(s[i + 1]) &&
         RenderUpTo(s, draw, i + 1) == e[i := e[i].(meanderComponents := Some(PathAt(s, draw, i)))]) &&
      (!RenderedMeander(s, i) ==> RenderUpTo(s, draw, i + 1) == e)
  {
    var e := RenderUpTo(s, draw, i);
    var e' := RenderUpTo(s, draw, i + 1);
    if i > 0 {
      assert e[i - 1].Box? <==> s[i - 1].Box?;
      assert e[i - 1].Box? ==> e[i - 1] == s[i - 1];
    }
    if i + 1 < |s| {
      assert e[i + 1] == s[i + 1];
    }
    assert RenderedMeander(e, i) <==> RenderedMeander(s, i);
    if RenderedMeander(s, i) {
      assert e' == e[i := e[i].(meanderComponents := Some(PathAt(s, draw, i)))];
    } else {
      assert e' == e;
    }
  }

  /** Two lists with the same durations have the same total. */
  lemma {:induction false} SameDurationsTotal(a: seq<Element>, b: seq<Element>)
    requires |a| == |b| && forall j :: 0 <= j < |a| ==> a[j].duration == b[j].duration
    ensures TotalDuration(a) == TotalDuration(b)
    decreases |a|
  {
    if |a| > 0 {
      SameDurationsTotal(a[..|a| - 1], b[..|b| - 1]);
    }
  }

  /** The paths stored in `MEANDERS_LIST` while rendering up to position `upTo`, in order. */
  function PathsUpTo(s: seq<Element>, draw: MeanderDrawer, upTo: nat): seq<seq<Coord>>
    requires upTo <= |s|
  {
    if upTo == 0 then []
    else (PathsUpTo(s, draw, upTo - 1) +
          (if RenderedMeander(s, upTo - 1) then [PathAt(s, draw, upTo - 1)] else []))
  }

  /** The number of Meanders among the first `i` elements. */
  function MeanderRank(s: seq<Element>, i: nat): nat
    requires i <= |s|
  {
    if i == 0 then 0 else MeanderRank(s, i - 1) + (if s[i - 1].Meander? then 1 else 0)
  }

  /** `storeMeander(path)` as written: the path goes to the Meander whose rank among all Meanders is `k`. */
  function StoreAsWritten(s: seq<Element>, path: seq<Coord>, k: nat): (r: seq<Element>)
    ensures |r| == |s|
  {
    seq(|s|, j requires 0 <= j < |s| =>
      if s[j].Meander? && MeanderRank(s, j) == k then s[j].(meanderComponents := Some(path)) else s[j])
  }

  /**
   * The loop of `renderPath` from position `i` on, with `k` paths stored so
   * far, calling `storeMeander` as written.
   */
  function RenderAsWrittenFrom(s: seq<Element>, draw: MeanderDrawer, i: nat, k: nat): (r: seq<Element>)
    requires i <= |s|
    ensures |r| == |s|
    decreases |s| - i
  {
    if i == |s| then s
    else if RenderedMeander(s, i) then RenderAsWrittenFrom(StoreAsWritten(s, PathAt(s, draw, i), k), draw, i + 1, k + 1)
    else RenderAsWrittenFrom(s, draw, i + 1, k)
  }

  /** `renderPath` with `storeMeander` as written. */
  function RenderAsWritten(s: seq<Element>, draw: MeanderDrawer): seq<Element>
  {
    RenderAsWrittenFrom(s, draw, 0, 0)
  }

  /**
   * As written, `storeMeander` numbers rendered paths and Meanders
   * independently: in [Meander, Box, Meander, Box] only the second Meander
   * is rendered, yet its path is attached to the first one, and the Meander
   * that is played keeps no path.
   */
  lemma StoreMeanderMisattaches(draw: MeanderDrawer)
    ensures var s := [Meander(BasicElementT, None), Box(0.0, 0.0, 0.0, BasicElementT, 0),
                      Meander(BasicElementT, None), Box(1.0, 1.0, 1.0, BasicElementT, 1)];
      RenderedMeander(s, 2) && !RenderedMeander(s, 0) &&
      RenderAsWritten(s, draw)[0] == Meander(BasicElementT, Some(draw(Coord(0.0, 0.0, 0.0), Coord(1.0, 1.0, 1.0)))) &&
      RenderAsWritten(s, draw)[2] == Meander(BasicElementT, None) &&
      Rendered(s, draw)[2] == Meander(BasicElementT, Some(draw(Coord(0.0, 0.0, 0.0), Coord(1.0, 1.0, 1.0))))
  {
    var s := [Meander(BasicElementT, None), Box(0.0, 0.0, 0.0, BasicElementT, 0),
              Meander(BasicElementT, None), Box(1.0, 1.0, 1.0, BasicElementT, 1)];
    var path := draw(Coord(0.0, 0.0, 0.0), Coord(1.0, 1.0, 1.0));
    assert MeanderRank(s, 0) == 0 && MeanderRank(s, 2) == 1;
    var s1 := StoreAsWritten(s, path, 0);
    assert s1 == [Meander(BasicElementT, Some(path)), s[1], s[2], s[3]];
    assert !RenderedMeander(s, 0) && !RenderedMeander(s, 1) && RenderedMeander(s, 2);
    assert PathAt(s, draw, 2) == path;
    assert RenderAsWrittenFrom(s, draw, 0, 0) == RenderAsWrittenFrom(s, draw, 2, 0);
    assert RenderAsWrittenFrom(s, draw, 2, 0) == RenderAsWrittenFrom(s1, draw, 3, 1);
    assert !RenderedMeander(s1, 3);
    assert RenderAsWrittenFrom(s1, draw, 3, 1) == RenderAsWrittenFrom(s1, draw, 4, 1) == s1;
  }

  /**
   * The composition bar: the element list, the parallel list of drawing
   * papers, the element count, the bar-full flag and the meander paths
   * stored by the last rendering.
   */
  class Composition {
    var elements: seq<Element>
    var raphaels: seq<int>
    var numBoxes: int
    var isFull: bool
    var meandersList: seq<seq<Coord>>
    var numMeanders: int
    /** The latent-space service that computes the path drawn for a meander. */
    const drawMeander: MeanderDrawer

    ghost predicate Valid()
      reads this
    {
      |raphaels| == |elements| && numBoxes == |elements| &&
      numMeanders == |meandersList| && NonNegDurations(elements)
    }

    constructor(draw: MeanderDrawer)
      ensures Valid() && elements == [] && raphaels == [] && !isFull && meandersList == []
      ensures drawMeander == draw
    {
      elements := [];
      raphaels := [];
      numBoxes := 0;
      isFull := false;
      meandersList := [];
      numMeanders := 0;
      drawMeander := draw;
    }

    /** `calculateCurrentCompostionTime`: sums the durations in a loop. */
    method CurrentCompositionTime() returns (t: real)
      ensures t == TotalDuration(elements)
    {
      t := 0.0;
      var i := 0;
      while i < |elements|
        invariant 0 <= i <= |elements|
        invariant t == TotalDuration(elements[..i])
      {
        assert elements[..i + 1][..i] == elements[..i];
        t := t + elements[i].duration;
        i := i + 1;
      }
      assert elements[..i] == elements;
    }

    /** The bar-full recomputation that follows every append, release and deletion. */
    method UpdateFullFlag()
      modifies this`isFull
      ensures isFull == (TotalDuration(elements) >= MaxCompositionDuration)
    {
      var t := CurrentCompositionTime();
      isFull := t >= MaxCompositionDuration;
    }

    /**
     * The shared part of `drawBox`, `drawCrossfade` and `drawMeander`:
     * append the element and its paper only while the total is below the
     * cap, then recompute the flag; at or over the cap only set the flag.
     */
    method AppendElement(e: Element, paper: int)
      requires Valid() && e.duration >= 0.0
      modifies this`elements, this`raphaels, this`numBoxes, this`isFull
      ensures Valid()
      ensures TotalDuration(old(elements)) < MaxCompositionDuration ==>
        elements == old(elements) + [e] && raphaels == old(raphaels) + [paper] &&
        numBoxes == old(numBoxes) + 1 && isFull == (TotalDuration(elements) >= MaxCompositionDuration)
      ensures TotalDuration(old(elements)) >= MaxCompositionDuration ==>
        elements == old(elements) && raphaels == old(raphaels) && numBoxes == old(numBoxes) && isFull
    {
      var t := CurrentCompositionTime();
      if t < MaxCompositionDuration {
        elements := elements + [e];
        numBoxes := numBoxes + 1;
        raphaels := raphaels + [paper];
        UpdateFullFlag();
      } else {
        isFull := true;
      }
    }

    /**
     * `renderPath`, meander part: clears the stored paths, then gives every
     * Meander between two Boxes the path drawn between them.
     */
    method RenderPath()
      requires Valid()
      modifies this`elements, this`meandersList, this`numMeanders
      ensures Valid()
      ensures elements == Rendered(old(elements), drawMeander)
      ensures meandersList == PathsUpTo(old(elements), drawMeander, |old(elements)|)
      ensures numMeanders == |meandersList|
    {
      ghost var s := elements;
      meandersList := [];
      numMeanders := 0;
      RenderUpToNone(s, drawMeander);
      var i := 0;
      while i < |elements|
        invariant |elements| == |s| && 0 <= i <= |s|
        invariant elements == RenderUpTo(s, drawMeander, i)
        invariant meandersList == PathsUpTo(s, drawMeander, i)
        invariant numMeanders == |meandersList|
      {
        RenderAt(s, i);
        i := i + 1;
      }
      assert i == |s| && s == old(elements);
      assert elements == Rendered(s, drawMeander);
    }

    /** One pass of the `renderPath` loop: position `i` gets its path when it is a Meander between two Boxes. */
    method RenderAt(ghost s: seq<Element>, i: int)
      requires 0 <= i < |s|
      requires elements == RenderUpTo(s, drawMeander, i)
      requires meandersList == PathsUpTo(s, drawMeander, i) && numMeanders == |meandersList|
      modifies this`elements, this`meandersList, this`numMeanders
      ensures elements == RenderUpTo(s, drawMeander, i + 1)
      ensures meandersList == PathsUpTo(s, drawMeander, i + 1) && numMeanders == |meandersList|
    {
      RenderUpToStep(s, drawMeander, i);
      ghost var next := RenderUpTo(s, drawMeander, i + 1);
      if i != 0 && elements[i].Meander? && IsBox(elements, i - 1) && IsBox(elements, i + 1) {
        assert RenderedMeander(s, i);
        var path := drawMeander(BoxCoord(elements[i - 1]), BoxCoord(elements[i + 1]));
        assert path == PathAt(s, drawMeander, i);
        StoreMeander(i, path);
        assert elements == next;
      } else {
        assert !RenderedMeander(s, i);
      }
    }

    /** `storeMeander` as intended: the path goes to the Meander it was drawn for. */
    method StoreMeander(i: int, path: seq<Coord>)
      requires 0 <= i < |elements| && elements[i].Meander?
      modifies this`elements, this`meandersList, this`numMeanders
      ensures elements == old(elements)[i := old(elements)[i].(meanderComponents := Some(path))]
      ensures meandersList == old(meandersList) + [path] && numMeanders == old(numMeanders) + 1
    {
      meandersList := meandersList + [path];
      elements := elements[i := elements[i].(meanderComponents := Some(path))];
      numMeanders := numMeanders + 1;
    }

    /**
     * `storeMeander(path)` as written: appends the path to the meander list,
     * then walks the whole list counting Meanders and attaches the path to
     * the one whose count equals the number of paths stored before.
     */
    method StoreMeanderAsWritten(path: seq<Coord>)
      requires numMeanders == |meandersList|
      modifies this`elements, this`meandersList, this`numMeanders
      ensures elements == StoreAsWritten(old(elements), path, old(numMeanders))
      ensures meandersList == old(meandersList) + [path] && numMeanders == old(numMeanders) + 1
    {
      meandersList := meandersList + [path];
      ghost var s := elements;
      ghost var k: nat := numMeanders;
      var internalMeanderCount := 0;
      var i := 0;
      while i < |elements|
        invariant 0 <= i <= |s| && |elements| == |s|
        invariant numMeanders == k && meandersList == old(meandersList) + [path]
        invariant internalMeanderCount == MeanderRank(s, i)
        invariant forall j :: 0 <= j < i ==> elements[j] == StoreAsWritten(s, path, k)[j]
        invariant forall j :: i <= j < |s| ==> elements[j] == s[j]
      {
        if elements[i].Meander? {
          if internalMeanderCount == numMeanders {
            elements := elements[i := elements[i].(meanderComponents := Some(meandersList[internalMeanderCount]))];
          }
          internalMeanderCount := internalMeanderCount + 1;
        }
        i := i + 1;
      }
      assert elements == StoreAsWritten(s, path, k);
      numMeanders := numMeanders + 1;
    }

    /** `drawBox`: appends a Box of the basic duration, then renders. */
    method DrawBox(x: real, y: real, z: real, arrayIndex: int, paper: int)
      requires Valid()
      modifies this`elements, this`raphaels, this`numBoxes, this`isFull, this`meandersList, this`numMeanders
      ensures Valid()
      ensures TotalDuration(old(elements)) < MaxCompositionDuration ==>
        elements == Rendered(old(elements) + [Box(x, y, z, BasicElementT, arrayIndex)], drawMeander) &&
        raphaels == old(raphaels) + [paper] &&
        isFull == (TotalDuration(old(elements)) + BasicElementT >= MaxCompositionDuration)
      ensures TotalDuration(old(elements)) >= MaxCompositionDuration ==>
        elements == Rendered(old(elements), drawMeander) && raphaels == old(raphaels) && isFull
    {
      var boxStartHeight := TimesToPxHeight(BasicElementT);
      var duration := PxHeightToTimesMs(boxStartHeight);
      ConversionRoundTrip(BasicElementT, 0.0);
      AppendElement(Box(x, y, z, duration, arrayIndex), paper);
      TotalAppend(old(elements), [Box(x, y, z, duration, arrayIndex)]);
      RenderPath();
    }

    /** `drawCrossfade`: appends a Crossfade as long as its box is high, then renders. */
    method DrawCrossfade(clientHeight: real, paper: int)
      requires Valid() && clientHeight >= 0.0
      modifies this`elements, this`raphaels, this`numBoxes, this`isFull, this`meandersList, this`numMeanders
      ensures Valid()
      ensures TotalDuration(old(elements)) < MaxCompositionDuration ==>
        elements == Rendered(old(elements) + [Crossfade(PxHeightToTimesMs(clientHeight))], drawMeander) &&
        raphaels == old(raphaels) + [paper] &&
        isFull == (TotalDuration(elements) >= MaxCompositionDuration)
      ensures TotalDuration(old(elements)) >= MaxCompositionDuration ==>
        elements == Rendered(old(elements), drawMeander) && raphaels == old(raphaels) && isFull
    {
      AppendElement(Crossfade(PxHeightToTimesMs(clientHeight)), paper);
      RenderPath();
    }

    /** `drawMeander`: appends a Meander with no path yet, then renders. */
    method DrawMeander(clientHeight: real, paper: int)
      requires Valid() && clientHeight >= 0.0
      modifies this`elements, this`raphaels, this`numBoxes, this`isFull, this`meandersList, this`numMeanders
      ensures Valid()
      ensures TotalDuration(old(elements)) < MaxCompositionDuration ==>
        elements == Rendered(old(elements) + [Meander(PxHeightToTimesMs(clientHeight), None)], drawMeander) &&
        raphaels == old(raphaels) + [paper] &&
        isFull == (TotalDuration(elements) >= MaxCompositionDuration)
      ensures TotalDuration(old(elements)) >= MaxCompositionDuration ==>
        elements == Rendered(old(elements), drawMeander) && raphaels == old(raphaels) && isFull
    {
      AppendElement(Meander(PxHeightToTimesMs(clientHeight), None), paper);
      RenderPath();
    }

    /** `removeElement(i)`: removes element `i` and its paper, then renders. */
    method RemoveElement(i: int)
      requires Valid() && 0 <= i < |elements|
      modifies this`elements, this`raphaels, this`numBoxes, this`meandersList, this`numMeanders
      ensures Valid()
      ensures elements == Rendered(RemoveAt(old(elements), i), drawMeander)
      ensures raphaels == RemoveAt(old(raphaels), i) && numBoxes == old(numBoxes) - 1
      ensures TotalDuration(elements) == TotalDuration(old(elements)) - old(elements)[i].duration
    {
      numBoxes := numBoxes - 1;
      elements := RemoveAt(elements, i);
      raphaels := RemoveAt(raphaels, i);
      RemoveAtTotal(old(elements), i);
      RenderPath();
    }

    /** `drop`: element `d` dropped on element `t` is moved in front of it in both lists, then renders. */
    method Drop(d: int, t: int)
      requires Valid() && 0 <= d < |elements| && 0 <= t < |elements|
      modifies this`elements, this`raphaels, this`meandersList, this`numMeanders
      ensures Valid()
      ensures elements == Rendered(DropOrder(old(elements), d, t), drawMeander)
      ensures raphaels == DropOrder(old(raphaels), d, t)
      ensures TotalDuration(elements) == TotalDuration(old(elements))
    {
      if d != t {
        var e := elements[d];
        var paper := raphaels[d];
        if d > t {
          elements := RemoveAt(elements, d);
          elements := InsertAt(elements, t, e);
          raphaels := RemoveAt(raphaels, d);
          raphaels := InsertAt(raphaels, t, paper);
        } else {
          elements := InsertAt(elements, t, e);
          elements := RemoveAt(elements, d);
          raphaels := InsertAt(raphaels, t, paper);
          raphaels := RemoveAt(raphaels, d);
        }
      }
      assert elements == DropOrder(old(elements), d, t) && raphaels == DropOrder(old(raphaels), d, t);
      DropNonNeg(old(elements), d, t);
      DropTotal(old(elements), d, t);
      RenderPath();
    }

    /** The Box `up` handler, with the duration taken from the circle's diameter. */
    method ReleaseBox(i: int, radius: real)
      requires Valid() && 0 <= i < |elements| && radius >= 0.0
      modifies this`elements, this`isFull
      ensures Valid()
      ensures elements == old(elements)[i := old(elements)[i].(duration := BoxReleaseDuration(radius))]
      ensures isFull == (TotalDuration(elements) >= MaxCompositionDuration)
    {
      elements := elements[i := elements[i].(duration := BoxReleaseDuration(radius))];
      UpdateFullFlag();
    }

    /** The Crossfade and Meander `up` handlers: the duration is the handle height converted to ms. */
    method ReleaseHandle(i: int, y: real)
      requires Valid() && 0 <= i < |elements| && y >= 0.0
      modifies this`elements, this`isFull
      ensures Valid()
      ensures elements == old(elements)[i := old(elements)[i].(duration := PxHeightToTimesMs(y))]
      ensures isFull == (TotalDuration(elements) >= MaxCompositionDuration)
    {
      elements := elements[i := elements[i].(duration := PxHeightToTimesMs(y))];
      UpdateFullFlag();
    }

    /**
     * The timers of `play`: element `i` starts at the sum of the durations
     * before it, and playback stops 100 ms after the total.
     */
    method Play() returns (starts: seq<real>, stopAt: real)
      ensures starts == StartTimes(elements)
      ensures stopAt == TotalDuration(elements) + StopDelay
    {
      var timeout := 0.0;
      starts := [];
      var i := 0;
      while i < |elements|
        invariant 0 <= i <= |elements| && |starts| == i
        invariant timeout == TotalDuration(elements[..i])
        invariant forall j :: 0 <= j < i ==> starts[j] == PrefixDuration(elements, j)
      {
        starts := starts + [timeout];
        assert elements[..i + 1][..i] == elements[..i];
        timeout := timeout + elements[i].duration;
        i := i + 1;
      }
      assert elements[..i] == elements;
      stopAt := timeout + StopDelay;
    }

    /**
     * `animateBoxVerticalCursor(n)`: the cursor sweeps from the start time of
     * element `n` to its end time, scaled to the timeline length.
     */
    method AnimateBoxVerticalCursor(n: int, innerHeight: real) returns (startPx: real, stopPx: real, playbackMs: real)
      requires 0 <= n < |elements|
      ensures playbackMs == elements[n].duration
      ensures startPx == CursorPx(StartTimes(elements)[n], TimelineLength(innerHeight))
      ensures stopPx == CursorPx(StartTimes(elements)[n] + elements[n].duration, TimelineLength(innerHeight))
    {
      playbackMs := elements[n].duration;
      var cumulative := 0.0;
      var i := 0;
      while i < n
        invariant 0 <= i <= n
        invariant cumulative == TotalDuration(elements[..i])
      {
        assert elements[..i + 1][..i] == elements[..i];
        cumulative := cumulative + elements[i].duration;
        i := i + 1;
      }
      var bar := (innerHeight - (90.0 + 60.0 + 20.0)) * 0.95;
      startPx := cumulative * bar / MaxCompositionDuration;
      stopPx := (cumulative + elements[n].duration) * bar / MaxCompositionDuration;
    }

    /** `playBox(n)` on the current composition. */
    function PlayElement(n: int): (r: PlayAction)
      requires 0 <= n < |elements|
      reads this
      ensures r == PlayTransition <==> !elements[n].Box? && BetweenBoxes(elements, n)
    {
      PlayBox(elements, n)
    }
  }
}
