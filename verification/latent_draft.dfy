/**
 * The earlier draft of `LatentSpace` (latentJS.js). It differs from the live
 * service in its reverse lookup (a linear search where the first match
 * wins), in scanning every returned neighbour including the first, and in
 * an unweighted cost. It reads three fields it never assigns (`latent`,
 * `parameter` and `kd_tree`); here they are inputs of the object.
 */
module LatentSpaceDraft {
  import opened JsValues
  import opened Points
  import opened Meanders
  import LatentSpaceLive

  // ---------------------------------------------------------------------
  // Reverse lookup by linear search
  // ---------------------------------------------------------------------

  /** The first position at or after `i` holding `c`, or -1. */
  function FirstMatchFrom(latent: seq<Coord>, c: Coord, i: nat): (r: int)
    requires i <= |latent|
    ensures r == -1 <==> forall j :: i <= j < |latent| ==> latent[j] != c
    ensures r != -1 ==> i <= r < |latent| && latent[r] == c && forall j :: i <= j < r ==> latent[j] != c
    decreases |latent| - i
  {
    if i == |latent| then -1
    else if latent[i] == c then i
    else FirstMatchFrom(latent, c, i + 1)
  }

  /** The smallest index of `latent` holding `c`, or -1 when none does. */
  function FirstMatch(latent: seq<Coord>, c: Coord): (r: int)
    ensures r == -1 <==> c !in latent
    ensures r != -1 ==> 0 <= r < |latent| && latent[r] == c && forall j :: 0 <= j < r ==> latent[j] != c
  {
    FirstMatchFrom(latent, c, 0)
  }

  /** Looking up a stored coordinate gives its first occurrence, so the round trip is exact for distinct rows. */
  lemma FirstMatchRoundTrip(latent: seq<Coord>, i: int)
    requires 0 <= i < |latent|
    ensures FirstMatch(latent, latent[i]) <= i
    ensures (forall j :: 0 <= j < i ==> latent[j] != latent[i]) ==> FirstMatch(latent, latent[i]) == i
  {
  }

  // ---------------------------------------------------------------------
  // One step of the search
  // ---------------------------------------------------------------------

  /**
   * Everything the draft's `findNextPoint` reads: the dataset columns, the
   * row counts of the two matrices its bounds checks use, the `latent` and
   * `parameter` rows, the tree's query, the neighbour count and the distances.
   */
  datatype DraftSpace = DraftSpace(ds: Dataset, latentRows: nat, parameterRows: nat,
                                   latent: seq<Coord>, parameter: seq<Params>, tree: NeighbourOracle,
                                   k: nat, dist: LatentDistance, paramDist: ParamDistance)
  {
    /** The matrices describe points of the columns. */
    predicate Valid()
    {
      ds.Valid() && latentRows <= ds.Size() && parameterRows <= ds.Size()
    }
  }

  /** `getCoordinate(i)`: `null` outside [0, latentRows). */
  function GetCoordinate(sp: DraftSpace, i: int): (r: Option<Coord>)
    requires sp.Valid()
    ensures r.Some? <==> 0 <= i < sp.latentRows
    ensures r.Some? ==> r.value == sp.ds.CoordinateAt(i)
  {
    if i < 0 || i >= sp.latentRows then None else Some(sp.ds.CoordinateAt(i))
  }

  /** `getParameters(i)`: `null` outside [0, parameterRows). */
  function GetParameters(sp: DraftSpace, i: int): (r: Option<Params>)
    requires sp.Valid()
    ensures r.Some? <==> 0 <= i < sp.parameterRows
    ensures r.Some? ==> r.value == sp.ds.ParametersAt(i)
  {
    if i < 0 || i >= sp.parameterRows then None else Some(sp.ds.ParametersAt(i))
  }

  /** `getPointInfo(i)`: both `null` outside [0, |latent|), otherwise each part as its own getter answers. */
  function GetPointInfo(sp: DraftSpace, i: int): (r: PointInfo)
    requires sp.Valid()
    ensures !(0 <= i < |sp.latent|) ==> r == PointInfo(None, None)
    ensures 0 <= i < |sp.latent| ==> r == PointInfo(GetCoordinate(sp, i), GetParameters(sp, i))
  {
    if i < 0 || i >= |sp.latent| then PointInfo(None, None)
    else PointInfo(GetCoordinate(sp, i), GetParameters(sp, i))
  }

  /**
   * The draft's getters answer as the live service's, inside their own
   * row counts; with both matrices and `latent` covering every point,
   * `getPointInfo` of the two versions agrees everywhere.
   */
  lemma GettersAgreeWithLive(sp: DraftSpace, i: int)
    requires sp.Valid()
    ensures GetCoordinate(sp, i) == if i < sp.latentRows then LatentSpaceLive.GetCoordinate(sp.ds, i) else None
    ensures GetParameters(sp, i) == if i < sp.parameterRows then LatentSpaceLive.GetParameters(sp.ds, i) else None
    ensures sp.latentRows == sp.parameterRows == |sp.latent| == sp.ds.Size() ==>
      GetPointInfo(sp, i) == LatentSpaceLive.GetPointInfo(sp.ds, i)
  {
  }

  /** Position `j` of the neighbour list resolves to the goal `b`. */
  predicate MeetsGoal(sp: DraftSpace, b: int, nbrs: seq<Coord>, j: int)
  {
    0 <= j < |nbrs| && FirstMatch(sp.latent, nbrs[j]) != -1 && FirstMatch(sp.latent, nbrs[j]) == b
  }

  /** Position `j` holds a candidate: it resolves to an unvisited point other than `b` that has parameters. */
  predicate Candidate(sp: DraftSpace, b: int, path: set<int>, nbrs: seq<Coord>, j: int)
  {
    0 <= j < |nbrs| &&
    var idx := FirstMatch(sp.latent, nbrs[j]);
    idx != -1 && idx != b && idx !in path && idx < sp.parameterRows
  }

  /**
   * The draft's cost of the entry at position `j`: parameter distance to `a`
   * plus latent distance to `b`, the latter `Infinity` beyond `reference`.
   */
  function CostAt(sp: DraftSpace, aParams: Params, bLatent: Coord, reference: Num,
                  nbrs: seq<Coord>, j: int): Num
    requires sp.Valid()
  {
    if 0 <= j < |nbrs| && 0 <= FirstMatch(sp.latent, nbrs[j]) < sp.parameterRows
    then Add(Finite(sp.paramDist(sp.ds.ParametersAt(FirstMatch(sp.latent, nbrs[j])), aParams)),
             LatentTerm(sp.dist(bLatent, nbrs[j]), reference))
    else PosInf
  }

  /**
   * The draft's scan from position `j` on, over every entry of the list.
   * `aParams` is `None` when `a` has no parameter row; the first candidate
   * then throws, since its distance reads from `null`.
   */
  function Scan(sp: DraftSpace, a: int, b: int, path: set<int>, aParams: Option<Params>, bLatent: Coord,
                reference: Num, nbrs: seq<Coord>, j: nat, best: int, minCost: Num): Step
    requires sp.Valid()
    decreases |nbrs| - j
  {
    if j >= |nbrs| then Finish(a, best)
    else
      var idx := FirstMatch(sp.latent, nbrs[j]);
      if idx == -1 then Scan(sp, a, b, path, aParams, bLatent, reference, nbrs, j + 1, best, minCost)
      else if idx == b then Next(b)
      else if idx in path then Scan(sp, a, b, path, aParams, bLatent, reference, nbrs, j + 1, best, minCost)
      else if GetPointInfo(sp, idx).parameters.None? then Scan(sp, a, b, path, aParams, bLatent, reference, nbrs, j + 1, best, minCost)
      else if aParams.None? then Stuck(MissingParameters)
      else
        var cost := CostAt(sp, aParams.value, bLatent, reference, nbrs, j);
        if Less(cost, minCost) then Scan(sp, a, b, path, aParams, bLatent, reference, nbrs, j + 1, idx, cost)
        else Scan(sp, a, b, path, aParams, bLatent, reference, nbrs, j + 1, best, minCost)
  }

  /** `findNextPoint(a, b, path)` of the draft. */
  function NextPoint(sp: DraftSpace, a: int, b: int, path: set<int>): Step
    requires sp.Valid()
  {
    var ia := GetPointInfo(sp, a);
    var ib := GetPointInfo(sp, b);
    if ia.latent.None? || ib.latent.None? then Stuck(InvalidIndices)
    else
      Scan(sp, a, b, path, ia.parameters, ib.latent.value, Finite(sp.dist(ia.latent.value, ib.latent.value)),
           sp.tree(ia.latent.value, sp.k), 0, -1, PosInf)
  }

  function StepOf(sp: DraftSpace): StepFn
    requires sp.Valid()
  {
    (c, g, v) => NextPoint(sp, c, g, v)
  }

  function MeanderOf(sp: DraftSpace, i: int, j: int): seq<int>
    requires sp.Valid()
  {
    Meander(StepOf(sp), i, j)
  }

  /** What any scan returns: the goal, or an unvisited row index other than `a`; it throws on `a`'s missing parameters only. */
  lemma {:induction false} ScanSound(sp: DraftSpace, a: int, b: int, path: set<int>, aParams: Option<Params>,
                                     bLatent: Coord, reference: Num, nbrs: seq<Coord>, j: nat, best: int, minCost: Num)
    requires sp.Valid()
    requires best == -1 || (0 <= best < |sp.latent| && best !in path)
    ensures var r := Scan(sp, a, b, path, aParams, bLatent, reference, nbrs, j, best, minCost);
      (r.Next? ==> r.index == b || (0 <= r.index < |sp.latent| && r.index !in path && r.index != a)) &&
      (r == Stuck(MissingParameters) ==> aParams.None?) &&
      (r.Stuck? ==> r.reason == MissingParameters || r.reason == NoCandidate)
    decreases |nbrs| - j, 1
  {
    if j < |nbrs| {
      var idx := FirstMatch(sp.latent, nbrs[j]);
      if idx != -1 && idx != b && idx !in path && GetPointInfo(sp, idx).parameters.Some? && aParams.Some? {
        ScanSoundCost(sp, a, b, path, aParams, bLatent, reference, nbrs, j, best, minCost);
      } else if idx == -1 || idx in path || (idx != b && GetPointInfo(sp, idx).parameters.None?) {
        ScanSound(sp, a, b, path, aParams, bLatent, reference, nbrs, j + 1, best, minCost);
      }
    }
  }

  /** `ScanSound` at a candidate whose cost is compared with the least so far. */
  lemma {:induction false} ScanSoundCost(sp: DraftSpace, a: int, b: int, path: set<int>, aParams: Option<Params>,
                                         bLatent: Coord, reference: Num, nbrs: seq<Coord>, j: nat, best: int, minCost: Num)
    requires sp.Valid()
    requires best == -1 || (0 <= best < |sp.latent| && best !in path)
    requires j < |nbrs| && aParams.Some?
    requires var idx := FirstMatch(sp.latent, nbrs[j]);
      idx != -1 && idx != b && idx !in path && GetPointInfo(sp, idx).parameters.Some?
    ensures var r := Scan(sp, a, b, path, aParams, bLatent, reference, nbrs, j, best, minCost);
      (r.Next? ==> r.index == b || (0 <= r.index < |sp.latent| && r.index !in path && r.index != a)) &&
      (r == Stuck(MissingParameters) ==> aParams.None?) &&
      (r.Stuck? ==> r.reason == MissingParameters || r.reason == NoCandidate)
    decreases |nbrs| - j, 0
  {
    var idx := FirstMatch(sp.latent, nbrs[j]);
    var cost := CostAt(sp, aParams.value, bLatent, reference, nbrs, j);
    if Less(cost, minCost) {
      assert Scan(sp, a, b, path, aParams, bLatent, reference, nbrs, j, best, minCost) ==
             Scan(sp, a, b, path, aParams, bLatent, reference, nbrs, j + 1, idx, cost);
      ScanSound(sp, a, b, path, aParams, bLatent, reference, nbrs, j + 1, idx, cost);
    } else {
      assert Scan(sp, a, b, path, aParams, bLatent, reference, nbrs, j, best, minCost) ==
             Scan(sp, a, b, path, aParams, bLatent, reference, nbrs, j + 1, best, minCost);
      ScanSound(sp, a, b, path, aParams, bLatent, reference, nbrs, j + 1, best, minCost);
    }
  }

  /** The draft's step is sound: a returned index is a row of `latent`, and the goal or unvisited. */
  lemma NextPointSound(sp: DraftSpace)
    requires sp.Valid()
    ensures StepSound(StepOf(sp), |sp.latent|)
  {
    forall c, g, v | StepOf(sp)(c, g, v).Next?
      ensures 0 <= StepOf(sp)(c, g, v).index < |sp.latent|
      ensures StepOf(sp)(c, g, v).index == g || StepOf(sp)(c, g, v).index !in v
    {
      var ia := GetPointInfo(sp, c);
      var ib := GetPointInfo(sp, g);
      ScanSound(sp, c, g, v, ia.parameters, ib.latent.value, Finite(sp.dist(ia.latent.value, ib.latent.value)),
                sp.tree(ia.latent.value, sp.k), 0, -1, PosInf);
    }
  }

  /** Every meander of the draft has the shape `IsMeanderPath` describes. */
  lemma DraftMeanderShape(sp: DraftSpace, i: int, j: int)
    requires sp.Valid()
    ensures IsMeanderPath(MeanderOf(sp, i, j), i, j, |sp.latent|)
    ensures FollowsSteps(StepOf(sp), j, MeanderOf(sp, i, j))
    ensures StoppedProperly(StepOf(sp), j, MeanderOf(sp, i, j))
  {
    NextPointSound(sp);
    MeanderShape(StepOf(sp), |sp.latent|, i, j);
  }

  // ---------------------------------------------------------------------
  // The choice, when `a` has parameters and is already on the path
  // ---------------------------------------------------------------------

  ghost predicate NoGoalBefore(sp: DraftSpace, b: int, nbrs: seq<Coord>, i: int)
  {
    forall j :: 0 <= j < i ==> !MeetsGoal(sp, b, nbrs, j)
  }

  /** Every candidate before position `i` costs `c` or more. */
  ghost predicate LeastBefore(sp: DraftSpace, b: int, path: set<int>, aParams: Params, bLatent: Coord,
                              reference: Num, nbrs: seq<Coord>, i: int, c: Num)
    requires sp.Valid()
  {
    forall j :: 0 <= j < i && Candidate(sp, b, path, nbrs, j) ==>
      !Less(CostAt(sp, aParams, bLatent, reference, nbrs, j), c)
  }

  /** Position `p` holds `best` at a finite cost, strictly below every candidate before it. */
  ghost predicate FirstLeastAt(sp: DraftSpace, b: int, path: set<int>, aParams: Params, bLatent: Coord,
                               reference: Num, nbrs: seq<Coord>, p: int, best: int)
    requires sp.Valid()
  {
    Candidate(sp, b, path, nbrs, p) && FirstMatch(sp.latent, nbrs[p]) == best &&
    CostAt(sp, aParams, bLatent, reference, nbrs, p).Finite? &&
    forall j :: 0 <= j < p && Candidate(sp, b, path, nbrs, j) ==>
      Less(CostAt(sp, aParams, bLatent, reference, nbrs, p), CostAt(sp, aParams, bLatent, reference, nbrs, j))
  }

  ghost predicate ScanState(sp: DraftSpace, b: int, path: set<int>, aParams: Params, bLatent: Coord,
                            reference: Num, nbrs: seq<Coord>, i: nat, best: int, minCost: Num)
    requires sp.Valid()
  {
    i <= |nbrs| &&
    NoGoalBefore(sp, b, nbrs, i) &&
    (best == -1 ==> minCost == PosInf) &&
    (best != -1 ==> exists p :: 0 <= p < i && FirstLeastAt(sp, b, path, aParams, bLatent, reference, nbrs, p, best) &&
                                minCost == CostAt(sp, aParams, bLatent, reference, nbrs, p)) &&
    LeastBefore(sp, b, path, aParams, bLatent, reference, nbrs, i, minCost)
  }

  /** A draft cost is finite or `Infinity`, never `NaN`. */
  lemma CostNotNaN(sp: DraftSpace, aParams: Params, bLatent: Coord, reference: Num, nbrs: seq<Coord>, j: int)
    requires sp.Valid() && reference.Finite?
    ensures CostAt(sp, aParams, bLatent, reference, nbrs, j) != NaN
  {
  }

  lemma ScanTake(sp: DraftSpace, b: int, path: set<int>, aParams: Params, bLatent: Coord,
                 reference: Num, nbrs: seq<Coord>, i: nat, best: int, minCost: Num)
    requires sp.Valid() && reference.Finite?
    requires ScanState(sp, b, path, aParams, bLatent, reference, nbrs, i, best, minCost)
    requires Candidate(sp, b, path, nbrs, i)
    requires Less(CostAt(sp, aParams, bLatent, reference, nbrs, i), minCost)
    ensures ScanState(sp, b, path, aParams, bLatent, reference, nbrs, i + 1,
                      FirstMatch(sp.latent, nbrs[i]), CostAt(sp, aParams, bLatent, reference, nbrs, i))
  {
    var cost := CostAt(sp, aParams, bLatent, reference, nbrs, i);
    assert !MeetsGoal(sp, b, nbrs, i);
    forall j | 0 <= j < i + 1 && Candidate(sp, b, path, nbrs, j)
      ensures !Less(CostAt(sp, aParams, bLatent, reference, nbrs, j), cost)
    {
      if j < i {
        NotLessAcrossNewMinimum(CostAt(sp, aParams, bLatent, reference, nbrs, j), minCost, cost);
      }
    }
    forall j | 0 <= j < i && Candidate(sp, b, path, nbrs, j)
      ensures Less(cost, CostAt(sp, aParams, bLatent, reference, nbrs, j))
    {
      CostNotNaN(sp, aParams, bLatent, reference, nbrs, j);
    }
    assert FirstLeastAt(sp, b, path, aParams, bLatent, reference, nbrs, i, FirstMatch(sp.latent, nbrs[i]));
  }

  /** The outcome of a draft scan when `a` has parameters and is on the path. */
  ghost predicate OutcomeHolds(sp: DraftSpace, b: int, path: set<int>, aParams: Params, bLatent: Coord,
                               reference: Num, nbrs: seq<Coord>, r: Step)
    requires sp.Valid()
  {
    (r == Next(b) ==> exists j :: MeetsGoal(sp, b, nbrs, j)) &&
    (r.Next? && r.index != b ==>
      NoGoalBefore(sp, b, nbrs, |nbrs|) &&
      exists p :: 0 <= p < |nbrs| && FirstLeastAt(sp, b, path, aParams, bLatent, reference, nbrs, p, r.index) &&
                  LeastBefore(sp, b, path, aParams, bLatent, reference, nbrs, |nbrs|,
                              CostAt(sp, aParams, bLatent, reference, nbrs, p))) &&
    (r.Stuck? ==>
      (r == Stuck(NoCandidate) && NoGoalBefore(sp, b, nbrs, |nbrs|) &&
       forall j :: 0 <= j < |nbrs| && Candidate(sp, b, path, nbrs, j) ==>
         CostAt(sp, aParams, bLatent, reference, nbrs, j) == PosInf))
  }

  /** Passing a position that is neither the goal nor a candidate, or a candidate no cheaper, changes nothing. */
  lemma ScanPass(sp: DraftSpace, b: int, path: set<int>, aParams: Params, bLatent: Coord,
                 reference: Num, nbrs: seq<Coord>, i: nat, best: int, minCost: Num)
    requires sp.Valid() && reference.Finite?
    requires ScanState(sp, b, path, aParams, bLatent, reference, nbrs, i, best, minCost)
    requires i < |nbrs| && !MeetsGoal(sp, b, nbrs, i)
    requires Candidate(sp, b, path, nbrs, i) ==> !Less(CostAt(sp, aParams, bLatent, reference, nbrs, i), minCost)
    ensures ScanState(sp, b, path, aParams, bLatent, reference, nbrs, i + 1, best, minCost)
  {
  }

  /** At the end of the list: the choice, or, with none, every candidate was penalised. */
  lemma ScanEnd(sp: DraftSpace, a: int, b: int, path: set<int>, aParams: Params, bLatent: Coord,
                reference: Num, nbrs: seq<Coord>, best: int, minCost: Num)
    requires sp.Valid() && reference.Finite? && a in path
    requires ScanState(sp, b, path, aParams, bLatent, reference, nbrs, |nbrs|, best, minCost)
    ensures OutcomeHolds(sp, b, path, aParams, bLatent, reference, nbrs, Finish(a, best))
  {
    if best != -1 {
      var p :| 0 <= p < |nbrs| && FirstLeastAt(sp, b, path, aParams, bLatent, reference, nbrs, p, best) &&
               minCost == CostAt(sp, aParams, bLatent, reference, nbrs, p);
      assert best != a;
    } else {
      forall j | 0 <= j < |nbrs| && Candidate(sp, b, path, nbrs, j)
        ensures CostAt(sp, aParams, bLatent, reference, nbrs, j) == PosInf
      {
        CostNotNaN(sp, aParams, bLatent, reference, nbrs, j);
      }
    }
  }

  /** At the goal, the draft's scan returns it. */
  lemma ScanStepGoal(sp: DraftSpace, a: int, b: int, path: set<int>, aParams: Params,
                     bLatent: Coord, reference: Num, nbrs: seq<Coord>, i: nat, best: int, minCost: Num)
    requires sp.Valid() && i < |nbrs| && MeetsGoal(sp, b, nbrs, i)
    ensures Scan(sp, a, b, path, Some(aParams), bLatent, reference, nbrs, i, best, minCost) == Next(b)
  {
  }

  /** At a cheaper candidate, the draft's scan goes on with it as the choice so far. */
  lemma ScanStepTake(sp: DraftSpace, a: int, b: int, path: set<int>, aParams: Params,
                     bLatent: Coord, reference: Num, nbrs: seq<Coord>, i: nat, best: int, minCost: Num)
    requires sp.Valid() && i < |nbrs| && !MeetsGoal(sp, b, nbrs, i)
    requires Candidate(sp, b, path, nbrs, i) && Less(CostAt(sp, aParams, bLatent, reference, nbrs, i), minCost)
    ensures Scan(sp, a, b, path, Some(aParams), bLatent, reference, nbrs, i, best, minCost) ==
            Scan(sp, a, b, path, Some(aParams), bLatent, reference, nbrs, i + 1,
                 FirstMatch(sp.latent, nbrs[i]), CostAt(sp, aParams, bLatent, reference, nbrs, i))
  {
    var idx := FirstMatch(sp.latent, nbrs[i]);
    assert GetPointInfo(sp, idx).parameters.Some?;
  }

  /** Elsewhere, the draft's scan goes on with the choice so far unchanged. */
  lemma ScanStepPass(sp: DraftSpace, a: int, b: int, path: set<int>, aParams: Params,
                     bLatent: Coord, reference: Num, nbrs: seq<Coord>, i: nat, best: int, minCost: Num)
    requires sp.Valid() && i < |nbrs| && !MeetsGoal(sp, b, nbrs, i)
    requires Candidate(sp, b, path, nbrs, i) ==> !Less(CostAt(sp, aParams, bLatent, reference, nbrs, i), minCost)
    ensures Scan(sp, a, b, path, Some(aParams), bLatent, reference, nbrs, i, best, minCost) ==
            Scan(sp, a, b, path, Some(aParams), bLatent, reference, nbrs, i + 1, best, minCost)
  {
    var idx := FirstMatch(sp.latent, nbrs[i]);
    if idx != -1 && idx != b && idx !in path {
      assert GetPointInfo(sp, idx).parameters.Some? <==> idx < sp.parameterRows;
    }
  }

  /** Equal outcomes satisfy `OutcomeHolds` alike. */
  lemma OutcomeCarries(sp: DraftSpace, b: int, path: set<int>, aParams: Params, bLatent: Coord,
                       reference: Num, nbrs: seq<Coord>, r: Step, r': Step)
    requires sp.Valid() && r == r'
    requires OutcomeHolds(sp, b, path, aParams, bLatent, reference, nbrs, r')
    ensures OutcomeHolds(sp, b, path, aParams, bLatent, reference, nbrs, r)
  {
  }

  /** Returning the goal where position `i` meets it satisfies `OutcomeHolds`. */
  lemma GoalOutcome(sp: DraftSpace, b: int, path: set<int>, aParams: Params, bLatent: Coord,
                    reference: Num, nbrs: seq<Coord>, i: int, r: Step)
    requires sp.Valid() && MeetsGoal(sp, b, nbrs, i) && r == Next(b)
    ensures OutcomeHolds(sp, b, path, aParams, bLatent, reference, nbrs, r)
  {
  }

  /**
   * The draft's scan returns the goal where the list meets it; otherwise the
   * earliest candidate of least finite cost; and throws only when every
   * candidate is penalised as moving away (or there is none).
   */
  lemma {:induction false} ScanOutcome(sp: DraftSpace, a: int, b: int, path: set<int>, aParams: Params,
                                       bLatent: Coord, reference: Num, nbrs: seq<Coord>, i: nat, best: int, minCost: Num)
    requires sp.Valid() && reference.Finite? && a in path
    requires ScanState(sp, b, path, aParams, bLatent, reference, nbrs, i, best, minCost)
    ensures OutcomeHolds(sp, b, path, aParams, bLatent, reference, nbrs,
                         Scan(sp, a, b, path, Some(aParams), bLatent, reference, nbrs, i, best, minCost))
    decreases |nbrs| - i, 1
  {
    if i == |nbrs| {
      ScanEnd(sp, a, b, path, aParams, bLatent, reference, nbrs, best, minCost);
    } else if MeetsGoal(sp, b, nbrs, i) {
      ScanStepGoal(sp, a, b, path, aParams, bLatent, reference, nbrs, i, best, minCost);
      GoalOutcome(sp, b, path, aParams, bLatent, reference, nbrs, i,
                  Scan(sp, a, b, path, Some(aParams), bLatent, reference, nbrs, i, best, minCost));
    } else if Candidate(sp, b, path, nbrs, i) && Less(CostAt(sp, aParams, bLatent, reference, nbrs, i), minCost) {
      ScanOutcomeTake(sp, a, b, path, aParams, bLatent, reference, nbrs, i, best, minCost);
    } else {
      ScanOutcomePass(sp, a, b, path, aParams, bLatent, reference, nbrs, i, best, minCost);
    }
  }

  /** `ScanOutcome` at a cheaper candidate, which becomes the choice so far. */
  lemma {:induction false} ScanOutcomeTake(sp: DraftSpace, a: int, b: int, path: set<int>, aParams: Params,
                                           bLatent: Coord, reference: Num, nbrs: seq<Coord>, i: nat, best: int, minCost: Num)
    requires sp.Valid() && reference.Finite? && a in path
    requires ScanState(sp, b, path, aParams, bLatent, reference, nbrs, i, best, minCost)
    requires i < |nbrs| && !MeetsGoal(sp, b, nbrs, i)
    requires Candidate(sp, b, path, nbrs, i) && Less(CostAt(sp, aParams, bLatent, reference, nbrs, i), minCost)
    ensures OutcomeHolds(sp, b, path, aParams, bLatent, reference, nbrs,
                         Scan(sp, a, b, path, Some(aParams), bLatent, reference, nbrs, i, best, minCost))
    decreases |nbrs| - i, 0
  {
    var idx := FirstMatch(sp.latent, nbrs[i]);
    var cost := CostAt(sp, aParams, bLatent, reference, nbrs, i);
    ScanStepTake(sp, a, b, path, aParams, bLatent, reference, nbrs, i, best, minCost);
    ScanTake(sp, b, path, aParams, bLatent, reference, nbrs, i, best, minCost);
    ScanOutcome(sp, a, b, path, aParams, bLatent, reference, nbrs, i + 1, idx, cost);
    OutcomeCarries(sp, b, path, aParams, bLatent, reference, nbrs,
                   Scan(sp, a, b, path, Some(aParams), bLatent, reference, nbrs, i, best, minCost),
                   Scan(sp, a, b, path, Some(aParams), bLatent, reference, nbrs, i + 1, idx, cost));
  }

  /** `ScanOutcome` past a position that leaves the choice so far as it is. */
  lemma {:induction false} ScanOutcomePass(sp: DraftSpace, a: int, b: int, path: set<int>, aParams: Params,
                                           bLatent: Coord, reference: Num, nbrs: seq<Coord>, i: nat, best: int, minCost: Num)
    requires sp.Valid() && reference.Finite? && a in path
    requires ScanState(sp, b, path, aParams, bLatent, reference, nbrs, i, best, minCost)
    requires i < |nbrs| && !MeetsGoal(sp, b, nbrs, i)
    requires Candidate(sp, b, path, nbrs, i) ==> !Less(CostAt(sp, aParams, bLatent, reference, nbrs, i), minCost)
    ensures OutcomeHolds(sp, b, path, aParams, bLatent, reference, nbrs,
                         Scan(sp, a, b, path, Some(aParams), bLatent, reference, nbrs, i, best, minCost))
    decreases |nbrs| - i, 0
  {
    ScanStepPass(sp, a, b, path, aParams, bLatent, reference, nbrs, i, best, minCost);
    ScanPass(sp, b, path, aParams, bLatent, reference, nbrs, i, best, minCost);
    ScanOutcome(sp, a, b, path, aParams, bLatent, reference, nbrs, i + 1, best, minCost);
    OutcomeCarries(sp, b, path, aParams, bLatent, reference, nbrs,
                   Scan(sp, a, b, path, Some(aParams), bLatent, reference, nbrs, i, best, minCost),
                   Scan(sp, a, b, path, Some(aParams), bLatent, reference, nbrs, i + 1, best, minCost));
  }

  /**
   * Inside a meander (the current point `a` is on the path and has
   * parameters): the draft's step returns the goal when the neighbour list
   * meets it; otherwise it picks the earliest candidate of least cost, which
   * is never farther from the goal than `a` is; and it throws only when
   * every candidate would move away from the goal.
   */
  lemma NextPointOutcome(sp: DraftSpace, a: int, b: int, path: set<int>)
    requires sp.Valid() && a in path
    requires 0 <= a < |sp.latent| && 0 <= b < |sp.latent|
    requires a < sp.latentRows && b < sp.latentRows && a < sp.parameterRows
    ensures var ca := sp.ds.CoordinateAt(a);
      var cb := sp.ds.CoordinateAt(b);
      var reference := Finite(sp.dist(ca, cb));
      var nbrs := sp.tree(ca, sp.k);
      var r := NextPoint(sp, a, b, path);
      OutcomeHolds(sp, b, path, sp.ds.ParametersAt(a), cb, reference, nbrs, r) &&
      (r.Next? && r.index != b ==>
         exists p :: (Candidate(sp, b, path, nbrs, p) &&
                      FirstMatch(sp.latent, nbrs[p]) == r.index && sp.dist(cb, nbrs[p]) <= sp.dist(ca, cb)))
  {
    var ca := sp.ds.CoordinateAt(a);
    var cb := sp.ds.CoordinateAt(b);
    var reference := Finite(sp.dist(ca, cb));
    var nbrs := sp.tree(ca, sp.k);
    assert ScanState(sp, b, path, sp.ds.ParametersAt(a), cb, reference, nbrs, 0, -1, PosInf);
    ScanOutcome(sp, a, b, path, sp.ds.ParametersAt(a), cb, reference, nbrs, 0, -1, PosInf);
    var r := NextPoint(sp, a, b, path);
    if r.Next? && r.index != b {
      var p :| 0 <= p < |nbrs| && FirstLeastAt(sp, b, path, sp.ds.ParametersAt(a), cb, reference, nbrs, p, r.index) &&
               LeastBefore(sp, b, path, sp.ds.ParametersAt(a), cb, reference, nbrs, |nbrs|,
                           CostAt(sp, sp.ds.ParametersAt(a), cb, reference, nbrs, p));
      assert LatentTerm(sp.dist(cb, nbrs[p]), reference) != PosInf;
    }
  }

  // ---------------------------------------------------------------------
  // The draft object
  // ---------------------------------------------------------------------

  class LatentSpace {
    const dataset: Dataset
    const dimensionality: nat
    const neighbors: nat
    /** `dataset.reduced_latent_matrix.length`, the bound `getCoordinate` checks. */
    const latentRows: nat
    /** `dataset.parameter_matrix.length`, the bound `getParameters` checks. */
    const parameterRows: nat
    /** `this.latent`, read but never assigned in the class. */
    const latent: seq<Coord>
    /** `this.parameter`, read but never assigned in the class. */
    const parameter: seq<Params>
    /** `this.kd_tree.nearest`, read but never assigned in the class. */
    const kdTree: NeighbourOracle
    const dist: LatentDistance
    const paramDist: ParamDistance
    /** `this.path_cache`, keyed by the ordered index pair. */
    var pathCache: map<(int, int), seq<int>>

    /** Every cached path is a meander between its key's rows. */
    ghost predicate Valid()
      reads this
    {
      Space().Valid() &&
      forall key :: key in pathCache ==>
        0 <= key.0 < |latent| && 0 <= key.1 < |latent| && IsMeanderPath(pathCache[key], key.0, key.1, |latent|)
    }

    function Space(): DraftSpace
    {
      DraftSpace(dataset, latentRows, parameterRows, latent, parameter, kdTree, neighbors, dist, paramDist)
    }

    constructor (dataset: Dataset, dimensionality: nat, k: nat, latentRows: nat, parameterRows: nat,
                 latent: seq<Coord>, parameter: seq<Params>, kdTree: NeighbourOracle,
                 dist: LatentDistance, paramDist: ParamDistance)
      requires dataset.Valid() && latentRows <= dataset.Size() && parameterRows <= dataset.Size()
      ensures Valid() && pathCache == map[]
      ensures this.dataset == dataset && this.dimensionality == dimensionality && this.neighbors == k
      ensures this.latentRows == latentRows && this.parameterRows == parameterRows
      ensures this.latent == latent && this.parameter == parameter && this.kdTree == kdTree
      ensures this.dist == dist && this.paramDist == paramDist
    {
      this.dataset := dataset;
      this.dimensionality := dimensionality;
      this.neighbors := k;
      this.latentRows := latentRows;
      this.parameterRows := parameterRows;
      this.latent := latent;
      this.parameter := parameter;
      this.kdTree := kdTree;
      this.dist := dist;
      this.paramDist := paramDist;
      pathCache := map[];
    }

    /** `getIndexGivenLatent(c)`: the linear search over `latent`, first match first. */
    method GetIndexGivenLatent(c: Coord) returns (r: int)
      ensures r == FirstMatch(latent, c)
    {
      var i := 0;
      while i < |latent|
        invariant 0 <= i <= |latent|
        invariant forall j :: 0 <= j < i ==> latent[j] != c
      {
        if latent[i] == c {
          return i;
        }
        i := i + 1;
      }
      return -1;
    }

    /** `findNextPoint(a, b, path)` of the draft, written out step by step. */
    method FindNextPoint(a: int, b: int, path: set<int>) returns (r: Step)
      requires Valid()
      ensures r == NextPoint(Space(), a, b, path)
    {
      var sp := Space();
      var infoA := GetPointInfo(sp, a);
      var infoB := GetPointInfo(sp, b);
      if infoA.latent.None? || infoB.latent.None? {
        return Stuck(InvalidIndices);
      }
      var aLatent := infoA.latent.value;
      var bLatent := infoB.latent.value;
      var latentDistance0 := Finite(dist(aLatent, bLatent));
      var nearestNeighbors := kdTree(aLatent, neighbors);
      var bestIndex := -1;
      var minCost := PosInf;
      var j := 0;
      while j < |nearestNeighbors|
        invariant 0 <= j <= |nearestNeighbors|
        invariant Scan(sp, a, b, path, infoA.parameters, bLatent, latentDistance0, nearestNeighbors, j, bestIndex, minCost)
                  == NextPoint(sp, a, b, path)
      {
        var neighborPoint := nearestNeighbors[j];
        var neighborIndex := GetIndexGivenLatent(neighborPoint);
        if neighborIndex == b {
          return Next(b);
        }
        if neighborIndex != -1 && neighborIndex !in path {
          var kParam := GetPointInfo(sp, neighborIndex).parameters;
          if kParam.Some? {
            if infoA.parameters.None? {
              return Stuck(MissingParameters);
            }
            var paramDistanceToA := Finite(paramDist(kParam.value, infoA.parameters.value));
            var latentDistanceToB := Finite(dist(bLatent, neighborPoint));
            if Greater(latentDistanceToB, latentDistance0) {
              latentDistanceToB := PosInf;
            }
            var cost := Add(paramDistanceToA, latentDistanceToB);
            if Less(cost, minCost) {
              minCost := cost;
              bestIndex := neighborIndex;
            }
          }
        }
        j := j + 1;
      }
      if bestIndex == -1 || bestIndex == a {
        return Stuck(NoCandidate);
      }
      return Next(bestIndex);
    }

    /** `calculateMeander(idx1, idx2)` of the draft. */
    method CalculateMeander(idx1: int, idx2: int) returns (path: seq<int>)
      requires Valid()
      ensures path == MeanderOf(Space(), idx1, idx2)
      ensures IsMeanderPath(path, idx1, idx2, |latent|)
    {
      ghost var step := StepOf(Space());
      path := [idx1];
      var pathSet := {idx1};
      var currentIdx := idx1;
      var steps := 0;
      while currentIdx != idx2 && steps < MaxSteps
        invariant steps <= MaxSteps
        invariant MeanderFrom(step, idx2, path, pathSet, currentIdx, steps) == Meander(step, idx1, idx2)
        decreases MaxSteps - steps
      {
        var newPoint := FindNextPoint(currentIdx, idx2, pathSet);
        assert step(currentIdx, idx2, pathSet) == newPoint;
        steps := steps + 1;
        if newPoint.Stuck? {
          break;
        }
        path := path + [newPoint.index];
        pathSet := pathSet + {newPoint.index};
        currentIdx := newPoint.index;
      }
      DraftMeanderShape(Space(), idx1, idx2);
    }

    /** `getMeander(c1, c2)` of the draft: `[]` for an unknown coordinate, otherwise memoised by index pair. */
    method GetMeander(c1: Coord, c2: Coord) returns (p: seq<int>)
      requires Valid()
      modifies this`pathCache
      ensures Valid()
      ensures c1 !in latent || c2 !in latent ==> p == [] && pathCache == old(pathCache)
      ensures c1 in latent && c2 in latent ==>
        var key := (FirstMatch(latent, c1), FirstMatch(latent, c2));
        key in pathCache && p == pathCache[key] &&
        (key in old(pathCache) ==> pathCache == old(pathCache)) &&
        (key !in old(pathCache) ==> p == MeanderOf(Space(), key.0, key.1) && pathCache == old(pathCache)[key := p])
      ensures forall key :: key in old(pathCache) ==> key in pathCache && pathCache[key] == old(pathCache)[key]
    {
      var idx1 := GetIndexGivenLatent(c1);
      var idx2 := GetIndexGivenLatent(c2);
      if idx1 == -1 || idx2 == -1 {
        return [];
      }
      var key := (idx1, idx2);
      if key in pathCache {
        return pathCache[key];
      }
      p := CalculateMeander(idx1, idx2);
      pathCache := pathCache[key := p];
    }

    /**
     * `calculateCrossfade(c1, c2, steps)` of the draft: `[]` when a
     * coordinate is unknown or its row has no parameters, otherwise the
     * `steps + 1` frames between the two rows' parameters.
     */
    method CalculateCrossfade(c1: Coord, c2: Coord, steps: nat) returns (frames: seq<Params>)
      requires Valid() && steps > 0
      ensures var i1 := FirstMatch(latent, c1);
        var i2 := FirstMatch(latent, c2);
        if i1 == -1 || i2 == -1 || i1 >= parameterRows || i2 >= parameterRows then frames == []
        else frames == Crossfade(dataset.ParametersAt(i1), dataset.ParametersAt(i2), steps)
    {
      var idx1 := GetIndexGivenLatent(c1);
      var idx2 := GetIndexGivenLatent(c2);
      if idx1 == -1 || idx2 == -1 {
        return [];
      }
      var params1 := GetPointInfo(Space(), idx1).parameters;
      var params2 := GetPointInfo(Space(), idx2).parameters;
      if params1.None? || params2.None? {
        return [];
      }
      frames := Interpolate(params1.value, params2.value, steps);
    }
  }
}
