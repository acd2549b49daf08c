/**
 * The `LatentSpace` service the app imports (osc-communication.js): dataset
 * access by index, the exact-match reverse map from coordinate to index,
 * the greedy meander search over a KD-tree's neighbour lists, the
 * never-evicted meander cache, and the parameter crossfade; plus the
 * `send*` adapters the composition player calls.
 */
module LatentSpaceLive {
  import opened JsValues
  import opened Points
  import opened Meanders

  /** Neighbours requested from the KD-tree when none are given. */
  const DefaultNeighbours: nat := 150

  /** Weight of the parameter distance in the cost of a candidate. */
  const ParamWeight: real := 1.0 / 400.0

  /** Number of crossfade steps `sendCrossfade` asks for. */
  const CrossfadeSteps: nat := 100

  /**
   * The reference distance `findNextPoint` compares candidates against. It
   * is computed by handing the two coordinate arrays to `calculateDistance`,
   * which expects indices: every coordinate it then reads is `undefined`, so
   * the distance is `NaN`, and no comparison with it is ever true.
   */
  const LiveReferenceDistance: Num := NaN

  // ---------------------------------------------------------------------
  // Dataset access
  // ---------------------------------------------------------------------

  /** `getCoordinate(i)`: no bounds check; outside the columns every component is `undefined`. */
  function GetCoordinate(ds: Dataset, i: int): (r: Option<Coord>)
    requires ds.Valid()
    ensures r.Some? <==> ds.InRange(i)
  {
    if ds.InRange(i) then Some(ds.CoordinateAt(i)) else None
  }

  /** `getParameters(i)`: no bounds check; outside the columns every parameter is `undefined`. */
  function GetParameters(ds: Dataset, i: int): (r: Option<Params>)
    requires ds.Valid()
    ensures r.Some? <==> ds.InRange(i)
    ensures r.Some? ==> |r.value| == ParamCount
  {
    if ds.InRange(i) then Some(ds.ParametersAt(i)) else None
  }

  /** `getPointInfo(i)`: both parts `null` outside [0, N), both present inside. */
  function GetPointInfo(ds: Dataset, i: int): (r: PointInfo)
    requires ds.Valid()
    ensures r.latent.Some? <==> ds.InRange(i)
    ensures r.parameters.Some? <==> ds.InRange(i)
    ensures r.latent.Some? ==> ds.CoordinateAt(i) == r.latent.value
    ensures r.parameters.Some? ==> ds.ParametersAt(i) == r.parameters.value
  {
    if i < 0 || i >= ds.Size() then PointInfo(None, None)
    else PointInfo(GetCoordinate(ds, i), GetParameters(ds, i))
  }

  // ---------------------------------------------------------------------
  // Reverse lookup
  // ---------------------------------------------------------------------

  /** The lookup table after `transformData` has written the first `n` points into `m`, in order. */
  function WriteIndices(m: map<Coord, int>, ds: Dataset, n: nat): map<Coord, int>
    requires ds.Valid() && n <= ds.Size()
  {
    if n == 0 then m else WriteIndices(m, ds, n - 1)[ds.CoordinateAt(n - 1) := n - 1]
  }

  /** The lookup table `transformData` builds from an empty one. */
  function LookUpTable(ds: Dataset): map<Coord, int>
    requires ds.Valid()
  {
    WriteIndices(map[], ds, ds.Size())
  }

  /** `getIndexGivenLatent(c)`: the stored index, or -1 when the coordinate has no entry. */
  function IndexOf(lookUp: map<Coord, int>, c: Coord): int
  {
    if c in lookUp then lookUp[c] else -1
  }

  /**
   * Writing points `0 .. n-1` in order leaves, for each coordinate among
   * them, the LAST index holding it; coordinates not among them get no entry.
   */
  lemma {:induction false} WriteIndicesLastWins(ds: Dataset, n: nat, c: Coord)
    requires ds.Valid() && n <= ds.Size()
    ensures c in WriteIndices(map[], ds, n) <==> exists i :: 0 <= i < n && ds.CoordinateAt(i) == c
    ensures c in WriteIndices(map[], ds, n) ==>
      var k := WriteIndices(map[], ds, n)[c];
      0 <= k < n && ds.CoordinateAt(k) == c && forall j :: k < j < n ==> ds.CoordinateAt(j) != c
  {
    if n > 0 {
      WriteIndicesLastWins(ds, n - 1, c);
      if ds.CoordinateAt(n - 1) != c && c in WriteIndices(map[], ds, n) {
        var k := WriteIndices(map[], ds, n)[c];
        assert k == WriteIndices(map[], ds, n - 1)[c];
      }
    }
  }

  /** Writing over an existing table is the existing table overridden by the fresh one. */
  lemma {:induction false} WriteIndicesOver(m: map<Coord, int>, ds: Dataset, n: nat)
    requires ds.Valid() && n <= ds.Size()
    ensures WriteIndices(m, ds, n) == m + WriteIndices(map[], ds, n)
  {
    if n > 0 {
      WriteIndicesOver(m, ds, n - 1);
    }
  }

  /** Running `transformData` again leaves the table as it was. */
  lemma TransformDataIdempotent(ds: Dataset)
    requires ds.Valid()
    ensures WriteIndices(LookUpTable(ds), ds, ds.Size()) == LookUpTable(ds)
  {
    WriteIndicesOver(LookUpTable(ds), ds, ds.Size());
    var t := LookUpTable(ds);
    assert t + t == t;
  }

  /**
   * `getIndexGivenLatent` after `transformData`: -1 exactly for a coordinate
   * no point has; otherwise an index holding that coordinate, the last one.
   */
  lemma IndexOfTable(ds: Dataset, c: Coord)
    requires ds.Valid()
    ensures IndexOf(LookUpTable(ds), c) == -1 <==> forall i :: ds.InRange(i) ==> ds.CoordinateAt(i) != c
    ensures IndexOf(LookUpTable(ds), c) != -1 ==>
      var k := IndexOf(LookUpTable(ds), c);
      ds.InRange(k) && ds.CoordinateAt(k) == c &&
      forall j :: k < j < ds.Size() ==> ds.CoordinateAt(j) != c
  {
    WriteIndicesLastWins(ds, ds.Size(), c);
  }

  /** No two points share a latent coordinate. */
  predicate DistinctCoordinates(ds: Dataset)
    requires ds.Valid()
  {
    forall i, j :: 0 <= i < ds.Size() && 0 <= j < ds.Size() && i != j ==> ds.CoordinateAt(i) != ds.CoordinateAt(j)
  }

  /**
   * The round trip of the reverse map: the index of point `i`'s coordinate is
   * `i` when coordinates are distinct; with duplicates it is the last point
   * sharing the coordinate, so never an earlier one.
   */
  lemma LookUpRoundTrip(ds: Dataset, i: int)
    requires ds.Valid() && ds.InRange(i)
    ensures IndexOf(LookUpTable(ds), ds.CoordinateAt(i)) >= i
    ensures DistinctCoordinates(ds) ==> IndexOf(LookUpTable(ds), ds.CoordinateAt(i)) == i
  {
    IndexOfTable(ds, ds.CoordinateAt(i));
  }

  // ---------------------------------------------------------------------
  // One step of the search: findNextPoint
  // ---------------------------------------------------------------------

  /**
   * Everything `findNextPoint` reads from the object: the dataset, the
   * lookup table, the tree (absent before `makeKDTree`), the neighbour count
   * and the two distances.
   */
  datatype Space = Space(ds: Dataset, lookUp: map<Coord, int>, tree: Option<NeighbourOracle>,
                         k: nat, dist: LatentDistance, paramDist: ParamDistance)
  {
    /** The lookup table is either still empty or the one `transformData` builds. */
    predicate Valid()
    {
      ds.Valid() && (lookUp == map[] || lookUp == LookUpTable(ds))
    }
  }

  /** Every index the lookup table gives is a point holding that coordinate. */
  lemma LookUpSound(sp: Space, c: Coord)
    requires sp.Valid()
    ensures c in sp.lookUp ==> sp.ds.InRange(sp.lookUp[c])
    ensures IndexOf(sp.lookUp, c) != -1 ==>
      sp.ds.InRange(IndexOf(sp.lookUp, c)) && sp.ds.CoordinateAt(IndexOf(sp.lookUp, c)) == c
  {
    if sp.lookUp != map[] {
      WriteIndicesLastWins(sp.ds, sp.ds.Size(), c);
    }
  }

  /** The cost of moving to point `idx`: weighted parameter distance to `a` plus latent distance to `b`. */
  function Cost(sp: Space, b: int, idx: int, aParams: Params): (r: Num)
    requires sp.Valid() && sp.ds.InRange(b) && sp.ds.InRange(idx)
    ensures r == Finite(sp.paramDist(sp.ds.ParametersAt(idx), aParams) * ParamWeight
                        + sp.dist(sp.ds.CoordinateAt(b), sp.ds.CoordinateAt(idx)))
  {
    Add(Finite(sp.paramDist(sp.ds.ParametersAt(idx), aParams) * ParamWeight),
        LatentTerm(sp.dist(sp.ds.CoordinateAt(b), sp.ds.CoordinateAt(idx)), LiveReferenceDistance))
  }

  /**
   * Position `i` of the neighbour list holds a candidate: an entry that
   * resolves to a point other than `a` and `b` that is not yet visited.
   */
  predicate Candidate(sp: Space, a: int, b: int, path: set<int>, nbrs: seq<Coord>, i: int)
  {
    1 <= i < sp.k && i < |nbrs| &&
    var idx := IndexOf(sp.lookUp, nbrs[i]);
    idx != -1 && idx != a && idx != b && idx !in path && sp.ds.InRange(idx)
  }

  /** Position `i` of the neighbour list resolves to the goal `b`. */
  predicate MeetsGoal(sp: Space, b: int, nbrs: seq<Coord>, i: int)
  {
    1 <= i < sp.k && i < |nbrs| && IndexOf(sp.lookUp, nbrs[i]) == b
  }

  /**
   * The scan of `findNextPoint` from position `i` on, with the running
   * choice `best` and its cost `minCost`. Positions 1 .. k-1 are read
   * whether or not the list is that long; a missing entry throws.
   */
  function Scan(sp: Space, a: int, b: int, path: set<int>, aParams: Params, nbrs: seq<Coord>,
                i: nat, best: int, minCost: Num): Step
    requires sp.Valid() && sp.ds.InRange(b)
    decreases sp.k - i
  {
    if i >= sp.k then Finish(a, best)
    else if i >= |nbrs| then Stuck(MissingNeighbour)
    else
      var idx := IndexOf(sp.lookUp, nbrs[i]);
      if idx == -1 then Scan(sp, a, b, path, aParams, nbrs, i + 1, best, minCost)
      else if idx == b then Next(b)
      else if idx == a || idx in path then Scan(sp, a, b, path, aParams, nbrs, i + 1, best, minCost)
      else if GetPointInfo(sp.ds, idx).parameters.None? then Scan(sp, a, b, path, aParams, nbrs, i + 1, best, minCost)
      else
        var cost := Cost(sp, b, idx, aParams);
        if Less(cost, minCost) then Scan(sp, a, b, path, aParams, nbrs, i + 1, idx, cost)
        else Scan(sp, a, b, path, aParams, nbrs, i + 1, best, minCost)
  }

  /** `findNextPoint(a, b, path)`: the next index, or the error it throws. */
  function NextPoint(sp: Space, a: int, b: int, path: set<int>): Step
    requires sp.Valid()
  {
    var ia := GetPointInfo(sp.ds, a);
    var ib := GetPointInfo(sp.ds, b);
    if ia.latent.None? || ib.latent.None? then Stuck(InvalidIndices)
    else if sp.tree.None? then Stuck(NoTree)
    else Scan(sp, a, b, path, ia.parameters.value, sp.tree.value(ia.latent.value, sp.k), 1, -1, PosInf)
  }

  /** `findNextPoint` as the step function of the search. */
  function StepOf(sp: Space): StepFn
    requires sp.Valid()
  {
    (c, g, v) => NextPoint(sp, c, g, v)
  }

  /** `calculateMeander(i, j)` on the object's current state. */
  function MeanderOf(sp: Space, i: int, j: int): seq<int>
    requires sp.Valid()
  {
    Meander(StepOf(sp), i, j)
  }

  /** The cost of the entry at position `j` of the neighbour list, for a position holding a point. */
  function CostAt(sp: Space, b: int, aParams: Params, nbrs: seq<Coord>, j: int): Num
    requires sp.Valid() && sp.ds.InRange(b)
  {
    if 0 <= j < |nbrs| && sp.ds.InRange(IndexOf(sp.lookUp, nbrs[j]))
    then Cost(sp, b, IndexOf(sp.lookUp, nbrs[j]), aParams)
    else PosInf
  }

  /** No position before `i` resolves to the goal. */
  ghost predicate NoGoalBefore(sp: Space, b: int, nbrs: seq<Coord>, i: int)
  {
    forall j :: 1 <= j < i ==> !MeetsGoal(sp, b, nbrs, j)
  }

  /** No position before `i` holds a candidate. */
  ghost predicate NoCandidateBefore(sp: Space, a: int, b: int, path: set<int>, nbrs: seq<Coord>, i: int)
  {
    forall j :: 1 <= j < i ==> !Candidate(sp, a, b, path, nbrs, j)
  }

  /** No candidate before position `i` costs less than `c`. */
  ghost predicate LeastBefore(sp: Space, a: int, b: int, path: set<int>, aParams: Params,
                              nbrs: seq<Coord>, i: int, c: Num)
    requires sp.Valid() && sp.ds.InRange(b)
  {
    forall j :: 1 <= j < i && Candidate(sp, a, b, path, nbrs, j) ==> !Less(CostAt(sp, b, aParams, nbrs, j), c)
  }

  /** Position `p` holds the candidate `best`, and every candidate before it costs strictly more. */
  ghost predicate FirstLeastAt(sp: Space, a: int, b: int, path: set<int>, aParams: Params,
                               nbrs: seq<Coord>, p: int, best: int)
    requires sp.Valid() && sp.ds.InRange(b)
  {
    Candidate(sp, a, b, path, nbrs, p) && IndexOf(sp.lookUp, nbrs[p]) == best &&
    forall j :: 1 <= j < p && Candidate(sp, a, b, path, nbrs, j) ==>
      Less(CostAt(sp, b, aParams, nbrs, p), CostAt(sp, b, aParams, nbrs, j))
  }

  /** The scan's state before position `i`: what it has chosen there and what it has seen. */
  ghost predicate ScanState(sp: Space, a: int, b: int, path: set<int>, aParams: Params, nbrs: seq<Coord>,
                            i: nat, best: int, minCost: Num)
    requires sp.Valid() && sp.ds.InRange(b)
  {
    1 <= i && (i == 1 || (i <= sp.k && i <= |nbrs|)) &&
    NoGoalBefore(sp, b, nbrs, i) &&
    (best == -1 ==> minCost == PosInf && NoCandidateBefore(sp, a, b, path, nbrs, i)) &&
    (best != -1 ==> exists p :: 1 <= p < i && FirstLeastAt(sp, a, b, path, aParams, nbrs, p, best) &&
                                minCost == CostAt(sp, b, aParams, nbrs, p)) &&
    LeastBefore(sp, a, b, path, aParams, nbrs, i, minCost)
  }

  /** Passing over a position that is neither the goal nor a candidate changes nothing. */
  lemma ScanSkip(sp: Space, a: int, b: int, path: set<int>, aParams: Params, nbrs: seq<Coord>,
                 i: nat, best: int, minCost: Num)
    requires sp.Valid() && sp.ds.InRange(b)
    requires ScanState(sp, a, b, path, aParams, nbrs, i, best, minCost)
    requires i < sp.k && i < |nbrs|
    requires !Candidate(sp, a, b, path, nbrs, i) && !MeetsGoal(sp, b, nbrs, i)
    ensures ScanState(sp, a, b, path, aParams, nbrs, i + 1, best, minCost)
  {
  }

  /** A candidate strictly cheaper than the running minimum becomes the choice. */
  lemma ScanTake(sp: Space, a: int, b: int, path: set<int>, aParams: Params, nbrs: seq<Coord>,
                 i: nat, best: int, minCost: Num)
    requires sp.Valid() && sp.ds.InRange(b)
    requires ScanState(sp, a, b, path, aParams, nbrs, i, best, minCost)
    requires i < sp.k && Candidate(sp, a, b, path, nbrs, i)
    requires Less(CostAt(sp, b, aParams, nbrs, i), minCost)
    ensures ScanState(sp, a, b, path, aParams, nbrs, i + 1, IndexOf(sp.lookUp, nbrs[i]), CostAt(sp, b, aParams, nbrs, i))
  {
    var cost := CostAt(sp, b, aParams, nbrs, i);
    assert !MeetsGoal(sp, b, nbrs, i);
    forall j | 1 <= j < i + 1 && Candidate(sp, a, b, path, nbrs, j)
      ensures !Less(CostAt(sp, b, aParams, nbrs, j), cost)
    {
      if j < i {
        NotLessAcrossNewMinimum(CostAt(sp, b, aParams, nbrs, j), minCost, cost);
      }
    }
    forall j | 1 <= j < i && Candidate(sp, a, b, path, nbrs, j)
      ensures Less(cost, CostAt(sp, b, aParams, nbrs, j))
    {
      if best != -1 {
        assert !Less(CostAt(sp, b, aParams, nbrs, j), minCost);
      }
    }
    assert FirstLeastAt(sp, a, b, path, aParams, nbrs, i, IndexOf(sp.lookUp, nbrs[i]));
  }

  /** A candidate no cheaper than the running minimum leaves the choice as it is. */
  lemma ScanKeep(sp: Space, a: int, b: int, path: set<int>, aParams: Params, nbrs: seq<Coord>,
                 i: nat, best: int, minCost: Num)
    requires sp.Valid() && sp.ds.InRange(b)
    requires ScanState(sp, a, b, path, aParams, nbrs, i, best, minCost)
    requires i < sp.k && Candidate(sp, a, b, path, nbrs, i)
    requires !Less(CostAt(sp, b, aParams, nbrs, i), minCost)
    ensures best != -1
    ensures ScanState(sp, a, b, path, aParams, nbrs, i + 1, best, minCost)
  {
    assert !MeetsGoal(sp, b, nbrs, i);
    assert CostAt(sp, b, aParams, nbrs, i).Finite?;
  }

  /** The outcome of a scan of the neighbour list. */
  ghost predicate ScanOutcomeHolds(sp: Space, a: int, b: int, path: set<int>, aParams: Params,
                                   nbrs: seq<Coord>, r: Step)
    requires sp.Valid() && sp.ds.InRange(b)
  {
    (r == Next(b) ==> exists j :: MeetsGoal(sp, b, nbrs, j)) &&
    (r.Next? && r.index != b ==>
      sp.k <= |nbrs| && NoGoalBefore(sp, b, nbrs, sp.k) &&
      exists p :: 1 <= p < sp.k && FirstLeastAt(sp, a, b, path, aParams, nbrs, p, r.index) &&
                  LeastBefore(sp, a, b, path, aParams, nbrs, sp.k, CostAt(sp, b, aParams, nbrs, p))) &&
    (r == Stuck(MissingNeighbour) ==> |nbrs| < sp.k && NoGoalBefore(sp, b, nbrs, |nbrs|)) &&
    (r == Stuck(NoCandidate) ==> NoGoalBefore(sp, b, nbrs, sp.k) && NoCandidateBefore(sp, a, b, path, nbrs, sp.k)) &&
    (r.Stuck? ==> r.reason == MissingNeighbour || r.reason == NoCandidate)
  }

  /**
   * What the scan returns, from any well-formed state: the goal only where
   * the list meets it; otherwise, after reading every position, the earliest
   * candidate of least cost; a missing entry only when the list is short,
   * and no choice only when no position holds a candidate.
   */
  lemma {:induction false} ScanOutcome(sp: Space, a: int, b: int, path: set<int>, aParams: Params,
                                       nbrs: seq<Coord>, i: nat, best: int, minCost: Num)
    requires sp.Valid() && sp.ds.InRange(b)
    requires ScanState(sp, a, b, path, aParams, nbrs, i, best, minCost)
    ensures ScanOutcomeHolds(sp, a, b, path, aParams, nbrs, Scan(sp, a, b, path, aParams, nbrs, i, best, minCost))
    decreases sp.k - i, 1
  {
    if i >= sp.k {
      if best != -1 {
        var p :| 1 <= p < i && FirstLeastAt(sp, a, b, path, aParams, nbrs, p, best) &&
                 minCost == CostAt(sp, b, aParams, nbrs, p);
        assert i == sp.k;
      }
    } else if i >= |nbrs| {
    } else if MeetsGoal(sp, b, nbrs, i) {
      ScanStepGoal(sp, a, b, path, aParams, nbrs, i, best, minCost);
      GoalOutcome(sp, a, b, path, aParams, nbrs, i, Scan(sp, a, b, path, aParams, nbrs, i, best, minCost));
    } else if !Candidate(sp, a, b, path, nbrs, i) {
      ScanOutcomeSkip(sp, a, b, path, aParams, nbrs, i, best, minCost);
    } else if Less(CostAt(sp, b, aParams, nbrs, i), minCost) {
      ScanOutcomeTake(sp, a, b, path, aParams, nbrs, i, best, minCost);
    } else {
      ScanOutcomeKeep(sp, a, b, path, aParams, nbrs, i, best, minCost);
    }
  }

  /** `ScanOutcome` past a position that is neither the goal nor a candidate. */
  lemma {:induction false} ScanOutcomeSkip(sp: Space, a: int, b: int, path: set<int>, aParams: Params,
                                           nbrs: seq<Coord>, i: nat, best: int, minCost: Num)
    requires sp.Valid() && sp.ds.InRange(b)
    requires ScanState(sp, a, b, path, aParams, nbrs, i, best, minCost)
    requires i < sp.k && i < |nbrs| && !MeetsGoal(sp, b, nbrs, i) && !Candidate(sp, a, b, path, nbrs, i)
    ensures ScanOutcomeHolds(sp, a, b, path, aParams, nbrs, Scan(sp, a, b, path, aParams, nbrs, i, best, minCost))
    decreases sp.k - i, 0
  {
    ScanStepSkip(sp, a, b, path, aParams, nbrs, i, best, minCost);
    ScanSkip(sp, a, b, path, aParams, nbrs, i, best, minCost);
    ScanOutcome(sp, a, b, path, aParams, nbrs, i + 1, best, minCost);
    OutcomeCarries(sp, a, b, path, aParams, nbrs, Scan(sp, a, b, path, aParams, nbrs, i, best, minCost),
                   Scan(sp, a, b, path, aParams, nbrs, i + 1, best, minCost));
  }

  /** `ScanOutcome` at a candidate cheaper than the running minimum. */
  lemma {:induction false} ScanOutcomeTake(sp: Space, a: int, b: int, path: set<int>, aParams: Params,
                                           nbrs: seq<Coord>, i: nat, best: int, minCost: Num)
    requires sp.Valid() && sp.ds.InRange(b)
    requires ScanState(sp, a, b, path, aParams, nbrs, i, best, minCost)
    requires i < sp.k && !MeetsGoal(sp, b, nbrs, i) && Candidate(sp, a, b, path, nbrs, i)
    requires Less(CostAt(sp, b, aParams, nbrs, i), minCost)
    ensures ScanOutcomeHolds(sp, a, b, path, aParams, nbrs, Scan(sp, a, b, path, aParams, nbrs, i, best, minCost))
    decreases sp.k - i, 0
  {
    var idx := IndexOf(sp.lookUp, nbrs[i]);
    var cost := CostAt(sp, b, aParams, nbrs, i);
    ScanStepTake(sp, a, b, path, aParams, nbrs, i, best, minCost);
    ScanTake(sp, a, b, path, aParams, nbrs, i, best, minCost);
    ScanOutcome(sp, a, b, path, aParams, nbrs, i + 1, idx, cost);
    OutcomeCarries(sp, a, b, path, aParams, nbrs, Scan(sp, a, b, path, aParams, nbrs, i, best, minCost),
                   Scan(sp, a, b, path, aParams, nbrs, i + 1, idx, cost));
  }

  /** `ScanOutcome` at a candidate no cheaper than the running minimum. */
  lemma {:induction false} ScanOutcomeKeep(sp: Space, a: int, b: int, path: set<int>, aParams: Params,
                                           nbrs: seq<Coord>, i: nat, best: int, minCost: Num)
    requires sp.Valid() && sp.ds.InRange(b)
    requires ScanState(sp, a, b, path, aParams, nbrs, i, best, minCost)
    requires i < sp.k && !MeetsGoal(sp, b, nbrs, i) && Candidate(sp, a, b, path, nbrs, i)
    requires !Less(CostAt(sp, b, aParams, nbrs, i), minCost)
    ensures ScanOutcomeHolds(sp, a, b, path, aParams, nbrs, Scan(sp, a, b, path, aParams, nbrs, i, best, minCost))
    decreases sp.k - i, 0
  {
    ScanStepKeep(sp, a, b, path, aParams, nbrs, i, best, minCost);
    ScanKeep(sp, a, b, path, aParams, nbrs, i, best, minCost);
    ScanOutcome(sp, a, b, path, aParams, nbrs, i + 1, best, minCost);
    OutcomeCarries(sp, a, b, path, aParams, nbrs, Scan(sp, a, b, path, aParams, nbrs, i, best, minCost),
                   Scan(sp, a, b, path, aParams, nbrs, i + 1, best, minCost));
  }

  /** At the goal, the scan returns it. */
  lemma ScanStepGoal(sp: Space, a: int, b: int, path: set<int>, aParams: Params, nbrs: seq<Coord>,
                     i: nat, best: int, minCost: Num)
    requires sp.Valid() && sp.ds.InRange(b) && MeetsGoal(sp, b, nbrs, i)
    ensures Scan(sp, a, b, path, aParams, nbrs, i, best, minCost) == Next(b)
  {
  }

  /** Past a position that is neither the goal nor a candidate, the scan goes on unchanged. */
  lemma ScanStepSkip(sp: Space, a: int, b: int, path: set<int>, aParams: Params, nbrs: seq<Coord>,
                     i: nat, best: int, minCost: Num)
    requires sp.Valid() && sp.ds.InRange(b)
    requires 1 <= i < sp.k && i < |nbrs| && !MeetsGoal(sp, b, nbrs, i) && !Candidate(sp, a, b, path, nbrs, i)
    ensures Scan(sp, a, b, path, aParams, nbrs, i, best, minCost) == Scan(sp, a, b, path, aParams, nbrs, i + 1, best, minCost)
  {
    var idx := IndexOf(sp.lookUp, nbrs[i]);
    if idx != -1 && idx != b && idx != a && idx !in path {
      assert GetPointInfo(sp.ds, idx).parameters.None?;
    }
  }

  /** At a cheaper candidate, the scan goes on with it as the choice. */
  lemma ScanStepTake(sp: Space, a: int, b: int, path: set<int>, aParams: Params, nbrs: seq<Coord>,
                     i: nat, best: int, minCost: Num)
    requires sp.Valid() && sp.ds.InRange(b)
    requires i < sp.k && !MeetsGoal(sp, b, nbrs, i) && Candidate(sp, a, b, path, nbrs, i)
    requires Less(CostAt(sp, b, aParams, nbrs, i), minCost)
    ensures Scan(sp, a, b, path, aParams, nbrs, i, best, minCost) ==
            Scan(sp, a, b, path, aParams, nbrs, i + 1, IndexOf(sp.lookUp, nbrs[i]), CostAt(sp, b, aParams, nbrs, i))
  {
    assert GetPointInfo(sp.ds, IndexOf(sp.lookUp, nbrs[i])).parameters.Some?;
  }

  /** At a candidate no cheaper, the scan goes on with the choice unchanged. */
  lemma ScanStepKeep(sp: Space, a: int, b: int, path: set<int>, aParams: Params, nbrs: seq<Coord>,
                     i: nat, best: int, minCost: Num)
    requires sp.Valid() && sp.ds.InRange(b)
    requires i < sp.k && !MeetsGoal(sp, b, nbrs, i) && Candidate(sp, a, b, path, nbrs, i)
    requires !Less(CostAt(sp, b, aParams, nbrs, i), minCost)
    ensures Scan(sp, a, b, path, aParams, nbrs, i, best, minCost) == Scan(sp, a, b, path, aParams, nbrs, i + 1, best, minCost)
  {
    assert GetPointInfo(sp.ds, IndexOf(sp.lookUp, nbrs[i])).parameters.Some?;
  }

  /** Equal outcomes satisfy `ScanOutcomeHolds` alike. */
  lemma OutcomeCarries(sp: Space, a: int, b: int, path: set<int>, aParams: Params, nbrs: seq<Coord>, r: Step, r': Step)
    requires sp.Valid() && sp.ds.InRange(b) && r == r'
    requires ScanOutcomeHolds(sp, a, b, path, aParams, nbrs, r')
    ensures ScanOutcomeHolds(sp, a, b, path, aParams, nbrs, r)
  {
  }

  /** Returning the goal where position `i` meets it satisfies `ScanOutcomeHolds`. */
  lemma GoalOutcome(sp: Space, a: int, b: int, path: set<int>, aParams: Params, nbrs: seq<Coord>, i: int, r: Step)
    requires sp.Valid() && sp.ds.InRange(b) && MeetsGoal(sp, b, nbrs, i) && r == Next(b)
    ensures ScanOutcomeHolds(sp, a, b, path, aParams, nbrs, r)
  {
  }


  /**
   * `findNextPoint(a, b, path)`: it throws on an invalid index or a missing
   * tree; otherwise it scans positions 1 .. k-1 of the neighbour list of
   * `a`, as `ScanOutcomeHolds` describes.
   */
  lemma NextPointOutcome(sp: Space, a: int, b: int, path: set<int>)
    requires sp.Valid()
    ensures !sp.ds.InRange(a) || !sp.ds.InRange(b) ==> NextPoint(sp, a, b, path) == Stuck(InvalidIndices)
    ensures sp.ds.InRange(a) && sp.ds.InRange(b) && sp.tree.None? ==> NextPoint(sp, a, b, path) == Stuck(NoTree)
    ensures sp.ds.InRange(a) && sp.ds.InRange(b) && sp.tree.Some? ==>
      ScanOutcomeHolds(sp, a, b, path, sp.ds.ParametersAt(a),
                       sp.tree.value(sp.ds.CoordinateAt(a), sp.k), NextPoint(sp, a, b, path))
  {
    if sp.ds.InRange(a) && sp.ds.InRange(b) && sp.tree.Some? {
      var nbrs := sp.tree.value(sp.ds.CoordinateAt(a), sp.k);
      assert ScanState(sp, a, b, path, sp.ds.ParametersAt(a), nbrs, 1, -1, PosInf);
      ScanOutcome(sp, a, b, path, sp.ds.ParametersAt(a), nbrs, 1, -1, PosInf);
    }
  }

  /**
   * `findNextPoint` returns `b` whenever some position 1 .. k-1 of the
   * neighbour list resolves to `b`, whatever comes before it.
   */
  lemma GoalWhenMet(sp: Space, a: int, b: int, path: set<int>, j: int)
    requires sp.Valid() && sp.ds.InRange(a) && sp.ds.InRange(b) && sp.tree.Some?
    requires MeetsGoal(sp, b, sp.tree.value(sp.ds.CoordinateAt(a), sp.k), j)
    ensures NextPoint(sp, a, b, path) == Next(b)
  {
    NextPointOutcome(sp, a, b, path);
  }

  /**
   * The next point is a point of the dataset, and either the goal or a
   * point that is neither `a` nor visited: the search step is sound.
   */
  lemma NextPointSound(sp: Space)
    requires sp.Valid()
    ensures StepSound(StepOf(sp), sp.ds.Size())
  {
    forall c, g, v | StepOf(sp)(c, g, v).Next?
      ensures 0 <= StepOf(sp)(c, g, v).index < sp.ds.Size()
      ensures StepOf(sp)(c, g, v).index == g || StepOf(sp)(c, g, v).index !in v
    {
      NextPointOutcome(sp, c, g, v);
      var r := NextPoint(sp, c, g, v);
      if r.index != g {
        var nbrs := sp.tree.value(sp.ds.CoordinateAt(c), sp.k);
        var p :| 1 <= p < sp.k && FirstLeastAt(sp, c, g, v, sp.ds.ParametersAt(c), nbrs, p, r.index) &&
                 LeastBefore(sp, c, g, v, sp.ds.ParametersAt(c), nbrs, sp.k, CostAt(sp, g, sp.ds.ParametersAt(c), nbrs, p));
      }
    }
  }

  /** Every meander of the live search has the shape `IsMeanderPath` describes. */
  lemma LiveMeanderShape(sp: Space, i: int, j: int)
    requires sp.Valid()
    ensures IsMeanderPath(MeanderOf(sp, i, j), i, j, sp.ds.Size())
    ensures FollowsSteps(StepOf(sp), j, MeanderOf(sp, i, j))
    ensures StoppedProperly(StepOf(sp), j, MeanderOf(sp, i, j))
  {
    NextPointSound(sp);
    MeanderShape(StepOf(sp), sp.ds.Size(), i, j);
  }

  // ---------------------------------------------------------------------
  // The service object
  // ---------------------------------------------------------------------

  /** The live `LatentSpace` object. */
  class LatentSpace {
    const dataset: Dataset
    const dimensionality: nat
    const neighbors: nat
    /** What the KD-tree library's `find` answers once the tree holds the dataset's points. */
    const finder: NeighbourOracle
    const dist: LatentDistance
    const paramDist: ParamDistance
    /** `this.tree`: absent until `makeKDTree`. */
    var tree: Option<NeighbourOracle>
    /** `this.lookUp`, keyed by coordinate rather than by its string form. */
    var lookUp: map<Coord, int>
    /** `this.path_cache`, keyed by the ordered index pair. */
    var pathCache: map<(int, int), seq<int>>

    /**
     * The lookup table is empty or complete, the tree is only there with a
     * complete table, and every cached path is a meander between its key's points.
     */
    ghost predicate Valid()
      reads this
    {
      dataset.Valid() &&
      (lookUp == map[] || lookUp == LookUpTable(dataset)) &&
      (tree.Some? ==> tree == Some(finder) && lookUp == LookUpTable(dataset)) &&
      forall key :: key in pathCache ==>
        dataset.InRange(key.0) && dataset.InRange(key.1) &&
        IsMeanderPath(pathCache[key], key.0, key.1, dataset.Size())
    }

    /** The state `findNextPoint` reads. */
    function State(): Space
      reads this
    {
      Space(dataset, lookUp, tree, neighbors, dist, paramDist)
    }

    /** `new LatentSpace(dataset, dimensionality, k)`: empty cache and lookup table, no tree yet. */
    constructor (dataset: Dataset, dimensionality: nat, k: nat,
                 finder: NeighbourOracle, dist: LatentDistance, paramDist: ParamDistance)
      requires dataset.Valid()
      ensures Valid()
      ensures this.dataset == dataset && this.dimensionality == dimensionality && this.neighbors == k
      ensures this.finder == finder && this.dist == dist && this.paramDist == paramDist
      ensures tree == None && lookUp == map[] && pathCache == map[]
    {
      this.dataset := dataset;
      this.dimensionality := dimensionality;
      this.neighbors := k;
      this.finder := finder;
      this.dist := dist;
      this.paramDist := paramDist;
      tree := None;
      lookUp := map[];
      pathCache := map[];
    }

    /**
     * `transformData()`: lists every point's coordinate and writes each
     * coordinate's index into the lookup table, in index order.
     */
    method TransformData() returns (points: seq<Coord>)
      requires Valid()
      modifies this`lookUp
      ensures Valid()
      ensures lookUp == LookUpTable(dataset)
      ensures |points| == dataset.Size()
      ensures forall i :: 0 <= i < |points| ==> points[i] == dataset.CoordinateAt(i)
    {
      points := [];
      var i := 0;
      while i < dataset.Size()
        invariant 0 <= i <= dataset.Size()
        invariant |points| == i
        invariant forall j :: 0 <= j < i ==> points[j] == dataset.CoordinateAt(j)
        invariant lookUp == WriteIndices(old(lookUp), dataset, i)
      {
        var c := Coord(dataset.x[i], dataset.y[i], dataset.z[i]);
        points := points + [c];
        lookUp := lookUp[c := i];
        i := i + 1;
      }
      WriteIndicesOver(old(lookUp), dataset, dataset.Size());
      if old(lookUp) != map[] {
        TransformDataIdempotent(dataset);
        WriteIndicesOver(LookUpTable(dataset), dataset, dataset.Size());
      }
    }

    /** `makeKDTree()`: builds the lookup table and the tree over the dataset's points. */
    method MakeKDTree()
      requires Valid()
      modifies this`lookUp, this`tree
      ensures Valid()
      ensures lookUp == LookUpTable(dataset) && tree == Some(finder)
    {
      var data := TransformData();
      tree := Some(finder);
    }

    /**
     * `getIndexGivenLatent(c)`: the index the lookup table holds for `c`, a
     * point with exactly that coordinate, or -1 when it holds none.
     */
    function GetIndexGivenLatent(c: Coord): (r: int)
      reads this
      requires Valid()
      ensures r == -1 <==> c !in lookUp
      ensures r != -1 ==> dataset.InRange(r) && dataset.CoordinateAt(r) == c
    {
      LookUpSound(State(), c);
      IndexOf(lookUp, c)
    }

    /**
     * `getParamsGivenLatent(c)`: the parameters of the point with coordinate
     * `c`; for an unknown coordinate, the parameters at index -1, which are
     * all `undefined`.
     */
    function GetParamsGivenLatent(c: Coord): (r: Option<Params>)
      reads this
      requires Valid()
      ensures r.Some? <==> c in lookUp
      ensures r.Some? ==> exists i :: dataset.InRange(i) && dataset.CoordinateAt(i) == c && r.value == dataset.ParametersAt(i)
    {
      GetParameters(dataset, GetIndexGivenLatent(c))
    }

    /** `findNextPoint(a, b, path)`, the scan written out step by step. */
    method FindNextPoint(a: int, b: int, path: set<int>) returns (r: Step)
      requires Valid()
      ensures r == NextPoint(State(), a, b, path)
    {
      ghost var sp := State();
      var infoA := GetPointInfo(dataset, a);
      var infoB := GetPointInfo(dataset, b);
      if infoA.latent.None? || infoB.latent.None? {
        return Stuck(InvalidIndices);
      }
      var latentDistance0 := LiveReferenceDistance;
      if tree.None? {
        return Stuck(NoTree);
      }
      var nearestNeighbors := tree.value(infoA.latent.value, neighbors);
      var aParam := infoA.parameters.value;
      var bestIndex := -1;
      var minCost := PosInf;
      var i := 1;
      while i < neighbors
        invariant 1 <= i
        invariant Scan(sp, a, b, path, aParam, nearestNeighbors, i, bestIndex, minCost) == NextPoint(sp, a, b, path)
        decreases neighbors - i
      {
        if i >= |nearestNeighbors| {
          return Stuck(MissingNeighbour);
        }
        var neighborIndex := GetIndexGivenLatent(nearestNeighbors[i]);
        if neighborIndex == b {
          return Next(b);
        }
        if neighborIndex != -1 && neighborIndex != a && neighborIndex !in path {
          var kInfo := GetPointInfo(dataset, neighborIndex);
          if kInfo.parameters.Some? {
            var paramDistanceToA := paramDist(kInfo.parameters.value, aParam);
            var latentDistanceToB := Finite(dist(dataset.CoordinateAt(b), dataset.CoordinateAt(neighborIndex)));
            if Greater(latentDistanceToB, latentDistance0) {
              latentDistanceToB := PosInf;
            }
            var cost := Add(Finite(paramDistanceToA * ParamWeight), latentDistanceToB);
            if Less(cost, minCost) {
              minCost := cost;
              bestIndex := neighborIndex;
            }
          }
        }
        i := i + 1;
      }
      if bestIndex == -1 || bestIndex == a {
        return Stuck(NoCandidate);
      }
      return Next(bestIndex);
    }

    /**
     * `calculateMeander(idx1, idx2)`: grows the path from `idx1` with
     * `findNextPoint` under the visited set, for at most `MaxSteps` steps,
     * and stops at the goal or at the first thrown error.
     */
    method CalculateMeander(idx1: int, idx2: int) returns (path: seq<int>)
      requires Valid()
      ensures path == MeanderOf(State(), idx1, idx2)
      ensures IsMeanderPath(path, idx1, idx2, dataset.Size())
    {
      ghost var step := StepOf(State());
      path := [idx1];
      var pathSet := {idx1};
      var currentIdx := idx1;
      var steps := 0;
      while currentIdx != idx2 && steps < MaxSteps
        invariant steps <= MaxSteps
        invariant MeanderFrom(step, idx2, path, pathSet, currentIdx, steps) == Meander(step, idx1, idx2)
        decreases MaxSteps - steps
      {
        var newPoint := FindNextPoint(currentIdx, idx2, pathSet);
        assert step(currentIdx, idx2, pathSet) == newPoint;
        steps := steps + 1;
        if newPoint.Stuck? {
          break;
        }
        path := path + [newPoint.index];
        pathSet := pathSet + {newPoint.index};
        currentIdx := newPoint.index;
      }
      LiveMeanderShape(State(), idx1, idx2);
    }

    /**
     * `getMeander(c1, c2)`: `[]` when either coordinate is unknown;
     * otherwise the cached path for the index pair, computing and caching
     * it on first use. Entries are never removed or replaced.
     */
    method GetMeander(c1: Coord, c2: Coord) returns (p: seq<int>)
      requires Valid()
      modifies this`pathCache
      ensures Valid()
      ensures c1 !in lookUp || c2 !in lookUp ==> p == [] && pathCache == old(pathCache)
      ensures c1 in lookUp && c2 in lookUp ==>
        var key := (lookUp[c1], lookUp[c2]);
        key in pathCache && p == pathCache[key] &&
        (key in old(pathCache) ==> pathCache == old(pathCache)) &&
        (key !in old(pathCache) ==> p == MeanderOf(State(), key.0, key.1) && pathCache == old(pathCache)[key := p])
      ensures forall key :: key in old(pathCache) ==> key in pathCache && pathCache[key] == old(pathCache)[key]
    {
      var idx1 := GetIndexGivenLatent(c1);
      var idx2 := GetIndexGivenLatent(c2);
      if idx1 == -1 || idx2 == -1 {
        return [];
      }
      var key := (idx1, idx2);
      if key in pathCache {
        return pathCache[key];
      }
      p := CalculateMeander(idx1, idx2);
      pathCache := pathCache[key := p];
    }

    /** `getLatentCoordinatesForPath(path)`: the coordinate of each index, `undefined` outside the dataset. */
    function GetLatentCoordinatesForPath(path: seq<int>): (r: seq<Option<Coord>>)
      requires dataset.Valid()
      ensures |r| == |path|
      ensures forall k :: 0 <= k < |path| ==> r[k] == GetCoordinate(dataset, path[k])
    {
      seq(|path|, k requires 0 <= k < |path| => GetCoordinate(dataset, path[k]))
    }

    /** `getParametersForPath(path)`: the parameter vector of each index, `undefined` outside the dataset. */
    function GetParametersForPath(path: seq<int>): (r: seq<Option<Params>>)
      requires dataset.Valid()
      ensures |r| == |path|
      ensures forall k :: 0 <= k < |path| ==> r[k] == GetParameters(dataset, path[k])
    {
      seq(|path|, k requires 0 <= k < |path| => GetParameters(dataset, path[k]))
    }

    /**
     * `calculateCrossfade(c1, c2, steps)`: `[]` when either coordinate is
     * unknown, otherwise the `steps + 1` frames of the linear crossfade
     * between the two points' parameters.
     */
    method CalculateCrossfade(c1: Coord, c2: Coord, steps: nat) returns (frames: seq<Params>)
      requires Valid() && steps > 0
      ensures c1 !in lookUp || c2 !in lookUp ==> frames == []
      ensures c1 in lookUp && c2 in lookUp ==>
        frames == Crossfade(dataset.ParametersAt(GetIndexGivenLatent(c1)), dataset.ParametersAt(GetIndexGivenLatent(c2)), steps)
    {
      var idx1 := GetIndexGivenLatent(c1);
      var idx2 := GetIndexGivenLatent(c2);
      if idx1 == -1 || idx2 == -1 {
        return [];
      }
      var params1 := GetParameters(dataset, idx1);
      var params2 := GetParameters(dataset, idx2);
      frames := Interpolate(params1.value, params2.value, steps);
    }

    /**
     * Looking a known coordinate up and reading that point back gives the
     * coordinate itself, with the parameters `getParamsGivenLatent` answers.
     */
    lemma PointInfoRoundTrip(c: Coord)
      requires Valid() && c in lookUp
      ensures GetPointInfo(dataset, GetIndexGivenLatent(c)) == PointInfo(Some(c), GetParamsGivenLatent(c))
    {
    }

    /**
     * Mapping a path to coordinates and looking each coordinate up again
     * gives the path back, when the dataset's coordinates are distinct.
     */
    lemma PathCoordinatesRoundTrip(path: seq<int>)
      requires dataset.Valid() && DistinctCoordinates(dataset)
      requires forall k :: 0 <= k < |path| ==> dataset.InRange(path[k])
      ensures forall k :: 0 <= k < |path| ==>
        GetLatentCoordinatesForPath(path)[k].Some? &&
        IndexOf(LookUpTable(dataset), GetLatentCoordinatesForPath(path)[k].value) == path[k]
    {
      forall k | 0 <= k < |path|
        ensures IndexOf(LookUpTable(dataset), GetLatentCoordinatesForPath(path)[k].value) == path[k]
      {
        LookUpRoundTrip(dataset, path[k]);
      }
    }

    /** Every index of a meander from a point is a point: its coordinates and parameters are all defined. */
    lemma MeanderPathsResolve(p: seq<int>, start: int, goal: int)
      requires dataset.Valid() && dataset.InRange(start)
      requires IsMeanderPath(p, start, goal, dataset.Size())
      ensures forall k :: 0 <= k < |p| ==> GetLatentCoordinatesForPath(p)[k].Some?
      ensures forall k :: 0 <= k < |p| ==> GetParametersForPath(p)[k].Some?
    {
    }
  }

  // ---------------------------------------------------------------------
  // The adapters the composition player calls, on the one shared instance
  // ---------------------------------------------------------------------

  /** `sendBox(x, y, z)`: the parameters of the point at that coordinate, `undefined` for an unknown one. */
  function SendBox(ls: LatentSpace, x: real, y: real, z: real): (r: Option<Params>)
    reads ls
    requires ls.Valid()
    ensures r.Some? <==> Coord(x, y, z) in ls.lookUp
    ensures r.Some? ==> |r.value| == ParamCount
  {
    ls.GetParamsGivenLatent(Coord(x, y, z))
  }

  /**
   * `sendMeander(start, end, meanderTime)`: the parameter vectors along the
   * meander between two coordinates; `meanderTime` is not used.
   */
  method SendMeander(ls: LatentSpace, sx: real, sy: real, sz: real, ex: real, ey: real, ez: real,
                     meanderTime: real) returns (r: seq<Option<Params>>)
    requires ls.Valid()
    modifies ls`pathCache
    ensures ls.Valid()
    ensures r == [] <==> Coord(sx, sy, sz) !in ls.lookUp || Coord(ex, ey, ez) !in ls.lookUp
    ensures Coord(sx, sy, sz) !in ls.lookUp || Coord(ex, ey, ez) !in ls.lookUp ==> ls.pathCache == old(ls.pathCache)
    ensures Coord(sx, sy, sz) in ls.lookUp && Coord(ex, ey, ez) in ls.lookUp ==>
      var key := (ls.lookUp[Coord(sx, sy, sz)], ls.lookUp[Coord(ex, ey, ez)]);
      key in ls.pathCache && r == ls.GetParametersForPath(ls.pathCache[key]) &&
      (key in old(ls.pathCache) ==> ls.pathCache == old(ls.pathCache)) &&
      (key !in old(ls.pathCache) ==> ls.pathCache[key] == MeanderOf(ls.State(), key.0, key.1))
    ensures forall key :: key in old(ls.pathCache) ==> key in ls.pathCache && ls.pathCache[key] == old(ls.pathCache)[key]
    ensures forall k :: 0 <= k < |r| ==> r[k].Some?
    ensures r != [] ==> r[0] == ls.GetParamsGivenLatent(Coord(sx, sy, sz))
  {
    var pathIndices := ls.GetMeander(Coord(sx, sy, sz), Coord(ex, ey, ez));
    if pathIndices != [] {
      ls.MeanderPathsResolve(pathIndices, pathIndices[0], ls.GetIndexGivenLatent(Coord(ex, ey, ez)));
    }
    r := ls.GetParametersForPath(pathIndices);
  }

  /** `sendDrawMeander(start, end)`: the coordinates along the meander between two coordinates. */
  method SendDrawMeander(ls: LatentSpace, sx: real, sy: real, sz: real, ex: real, ey: real, ez: real)
    returns (r: seq<Option<Coord>>)
    requires ls.Valid()
    modifies ls`pathCache
    ensures ls.Valid()
    ensures r == [] <==> Coord(sx, sy, sz) !in ls.lookUp || Coord(ex, ey, ez) !in ls.lookUp
    ensures Coord(sx, sy, sz) !in ls.lookUp || Coord(ex, ey, ez) !in ls.lookUp ==> ls.pathCache == old(ls.pathCache)
    ensures Coord(sx, sy, sz) in ls.lookUp && Coord(ex, ey, ez) in ls.lookUp ==>
      var key := (ls.lookUp[Coord(sx, sy, sz)], ls.lookUp[Coord(ex, ey, ez)]);
      key in ls.pathCache && r == ls.GetLatentCoordinatesForPath(ls.pathCache[key]) &&
      (key in old(ls.pathCache) ==> ls.pathCache == old(ls.pathCache)) &&
      (key !in old(ls.pathCache) ==> ls.pathCache[key] == MeanderOf(ls.State(), key.0, key.1))
    ensures forall key :: key in old(ls.pathCache) ==> key in ls.pathCache && ls.pathCache[key] == old(ls.pathCache)[key]
    ensures forall k :: 0 <= k < |r| ==> r[k].Some?
    ensures r != [] ==> r[0] == Some(Coord(sx, sy, sz))
  {
    var pathIndices := ls.GetMeander(Coord(sx, sy, sz), Coord(ex, ey, ez));
    if pathIndices != [] {
      ls.MeanderPathsResolve(pathIndices, pathIndices[0], ls.GetIndexGivenLatent(Coord(ex, ey, ez)));
    }
    if pathIndices != [] {
      var key := (ls.GetIndexGivenLatent(Coord(sx, sy, sz)), ls.GetIndexGivenLatent(Coord(ex, ey, ez)));
      assert IsMeanderPath(ls.pathCache[key], key.0, key.1, ls.dataset.Size());
    }
    r := ls.GetLatentCoordinatesForPath(pathIndices);
  }

  /**
   * `sendCrossfade(start, end, meanderTime)`: the 101 frames of the
   * crossfade between two known coordinates, from the first point's
   * parameters to the second's; `meanderTime` is not used.
   */
  method SendCrossfade(ls: LatentSpace, sx: real, sy: real, sz: real, ex: real, ey: real, ez: real,
                       meanderTime: real) returns (r: seq<Params>)
    requires ls.Valid()
    ensures r == [] <==> Coord(sx, sy, sz) !in ls.lookUp || Coord(ex, ey, ez) !in ls.lookUp
    ensures r != [] ==>
      (|r| == CrossfadeSteps + 1 &&
       Some(r[0]) == ls.GetParamsGivenLatent(Coord(sx, sy, sz)) &&
       Some(r[CrossfadeSteps]) == ls.GetParamsGivenLatent(Coord(ex, ey, ez)))
    ensures Coord(sx, sy, sz) in ls.lookUp && Coord(ex, ey, ez) in ls.lookUp ==>
      r == Crossfade(ls.dataset.ParametersAt(ls.lookUp[Coord(sx, sy, sz)]),
                     ls.dataset.ParametersAt(ls.lookUp[Coord(ex, ey, ez)]), CrossfadeSteps)
  {
    r := ls.CalculateCrossfade(Coord(sx, sy, sz), Coord(ex, ey, ez), CrossfadeSteps);
    if r != [] {
      CrossfadeEndpoints(ls.dataset.ParametersAt(ls.GetIndexGivenLatent(Coord(sx, sy, sz))),
                         ls.dataset.ParametersAt(ls.GetIndexGivenLatent(Coord(ex, ey, ez))), CrossfadeSteps);
    }
  }
}
