/**
 * The greedy meander search shared by both `LatentSpace` versions: starting
 * from one point, repeatedly ask a step function for the next point towards
 * the goal, under a visited set and a cap of 1000 steps, and stop at the
 * goal, at the cap or at the first failed step.
 */
module Meanders {
  import opened JsValues

  /** The cap on search steps in `calculateMeander`. */
  const MaxSteps: nat := 1000

  /** Why `findNextPoint` throws instead of returning a point. */
  datatype StuckReason =
    | InvalidIndices     // the current point or the goal has no latent coordinate
    | NoTree             // the KD-tree has not been built
    | MissingNeighbour   // the neighbour list is shorter than the scan expects
    | MissingParameters  // the current point has no parameter vector to compare with
    | NoCandidate        // no neighbour qualified as the next point

  /** The outcome of one `findNextPoint` call: the next index, or the error it throws. */
  datatype Step = Next(index: int) | Stuck(reason: StuckReason)

  /** The end of the neighbour scan in both versions: it throws when nothing was chosen or the choice is `a` itself. */
  function Finish(a: int, best: int): (r: Step)
    ensures r.Stuck? <==> best == -1 || best == a
  {
    if best == -1 || best == a then Stuck(NoCandidate) else Next(best)
  }

  /** `findNextPoint(current, goal, visited)`. */
  type StepFn = (int, int, set<int>) -> Step

  /** The elements of a path, as the search's visited set holds them. */
  function Elems(s: seq<int>): set<int>
  {
    set x | x in s
  }

  /**
   * The loop of `calculateMeander` from a given state on: `path` so far,
   * its elements `visited`, its last index `current` and the number of
   * steps taken.
   */
  function MeanderFrom(step: StepFn, goal: int, path: seq<int>, visited: set<int>,
                       current: int, steps: nat): seq<int>
    requires steps <= MaxSteps
    decreases MaxSteps - steps
  {
    if current == goal || steps == MaxSteps then path
    else
      match step(current, goal, visited)
      case Stuck(_) => path
      case Next(r) => MeanderFrom(step, goal, path + [r], visited + {r}, r, steps + 1)
  }

  /** `calculateMeander(start, goal)` for a given `findNextPoint`. */
  function Meander(step: StepFn, start: int, goal: int): seq<int>
  {
    MeanderFrom(step, goal, [start], {start}, start, 0)
  }

  /**
   * What the search needs of `findNextPoint` over a dataset of `n` points:
   * a returned index is a point, and it is the goal or not yet visited.
   */
  ghost predicate StepSound(step: StepFn, n: nat)
  {
    forall c, g, v :: step(c, g, v).Next? ==>
      0 <= step(c, g, v).index < n && (step(c, g, v).index == g || step(c, g, v).index !in v)
  }

  predicate NoDuplicates(s: seq<int>)
  {
    forall i, j :: 0 <= i < j < |s| ==> s[i] != s[j]
  }

  /**
   * The shape of every path the search returns: it starts at `start`, uses
   * only points, repeats no index, takes at most `MaxSteps` steps, and
   * meets the goal at most once, at its end.
   */
  ghost predicate IsMeanderPath(p: seq<int>, start: int, goal: int, n: nat)
  {
    1 <= |p| <= MaxSteps + 1 && p[0] == start && NoDuplicates(p) &&
    (forall i :: 0 < i < |p| ==> 0 <= p[i] < n) &&
    (forall i :: 0 <= i < |p| - 1 ==> p[i] != goal)
  }

  /** Each step of `p` is what `findNextPoint` answered from the point before, given the points before. */
  ghost predicate FollowsSteps(step: StepFn, goal: int, p: seq<int>)
  {
    forall i :: 0 <= i < |p| - 1 ==> step(p[i], goal, Elems(p[..i + 1])) == Next(p[i + 1])
  }

  /** Why the search ended: at the goal, at the step cap, or because `findNextPoint` threw. */
  ghost predicate StoppedProperly(step: StepFn, goal: int, p: seq<int>)
    requires |p| > 0
  {
    p[|p| - 1] == goal || |p| == MaxSteps + 1 || step(p[|p| - 1], goal, Elems(p)).Stuck?
  }

  lemma ElemsAppend(s: seq<int>, r: int)
    ensures Elems(s + [r]) == Elems(s) + {r}
  {
    assert forall x :: x in s + [r] <==> x in s || x == r;
  }

  /** A search state: the path so far, before the loop decides whether to go on. */
  ghost predicate PartialPath(step: StepFn, n: nat, start: int, goal: int, path: seq<int>)
  {
    |path| > 0 && path[0] == start && NoDuplicates(path) &&
    (forall i :: 0 < i < |path| ==> 0 <= path[i] < n) &&
    (forall i :: 0 <= i < |path| - 1 ==> path[i] != goal) &&
    FollowsSteps(step, goal, path)
  }

  /** One successful step of the loop keeps the search state well formed. */
  lemma ExtendPath(step: StepFn, n: nat, start: int, goal: int, path: seq<int>, r: int)
    requires StepSound(step, n) && PartialPath(step, n, start, goal, path)
    requires path[|path| - 1] != goal
    requires step(path[|path| - 1], goal, Elems(path)) == Next(r)
    ensures PartialPath(step, n, start, goal, path + [r])
  {
    var path' := path + [r];
    assert r == goal || r !in Elems(path);
    assert goal !in Elems(path);
    forall i, j | 0 <= i < j < |path'|
      ensures path'[i] != path'[j]
    {
      if j == |path| {
        assert path'[i] in Elems(path);
      }
    }
    forall i | 0 <= i < |path'| - 1
      ensures step(path'[i], goal, Elems(path'[..i + 1])) == Next(path'[i + 1])
    {
      if i == |path| - 1 {
        assert path'[..i + 1] == path;
      } else {
        assert path'[..i + 1] == path[..i + 1];
      }
    }
  }

  /** The loop of `calculateMeander` keeps the path's shape and only extends it. */
  lemma {:induction false} MeanderFromShape(step: StepFn, n: nat, start: int, goal: int,
                                            path: seq<int>, visited: set<int>, current: int, steps: nat)
    requires StepSound(step, n) && PartialPath(step, n, start, goal, path)
    requires steps <= MaxSteps && |path| == steps + 1
    requires path[|path| - 1] == current && visited == Elems(path)
    ensures var p := MeanderFrom(step, goal, path, visited, current, steps);
      PartialPath(step, n, start, goal, p) && |p| <= MaxSteps + 1 && StoppedProperly(step, goal, p)
    decreases MaxSteps - steps
  {
    if current == goal || steps == MaxSteps {
    } else {
      match step(current, goal, visited)
      case Stuck(_) =>
      case Next(r) =>
        ExtendPath(step, n, start, goal, path, r);
        ElemsAppend(path, r);
        MeanderFromShape(step, n, start, goal, path + [r], visited + {r}, r, steps + 1);
    }
  }

  /**
   * Every meander starts at `start`, repeats no index, has at most 1001
   * points, reaches the goal only at its end, follows `findNextPoint` step
   * by step, and ends at the goal, at the cap, or where `findNextPoint` threw.
   */
  lemma MeanderShape(step: StepFn, n: nat, start: int, goal: int)
    requires StepSound(step, n)
    ensures var p := Meander(step, start, goal);
      IsMeanderPath(p, start, goal, n) && FollowsSteps(step, goal, p) && StoppedProperly(step, goal, p)
  {
    assert Elems([start]) == {start};
    assert PartialPath(step, n, start, goal, [start]);
    MeanderFromShape(step, n, start, goal, [start], {start}, start, 0);
  }

  /** A meander from a point to itself is that single point. */
  lemma MeanderToSelf(step: StepFn, start: int)
    ensures Meander(step, start, start) == [start]
  {
  }

  /**
   * The latent term of the cost: a distance to the goal larger than the
   * reference distance counts as `Infinity`, so that the candidate's cost,
   * whatever the other term, is below no running minimum.
   */
  function LatentTerm(d: real, reference: Num): (r: Num)
    ensures r == PosInf <==> Greater(Finite(d), reference)
    ensures r != PosInf ==> r == Finite(d)
    ensures Greater(Finite(d), reference) ==> forall x, m :: !Less(Add(x, r), m)
  {
    if Greater(Finite(d), reference) then PosInf else Finite(d)
  }
}
