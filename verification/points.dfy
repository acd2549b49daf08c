/**
 * The latent-space dataset shared by both `LatentSpace` versions: one column
 * per latent axis (`x`, `y`, `z`) and one per synthesiser parameter
 * (`p1` .. `p8`), all indexed by point number; and the parameter crossfade
 * both versions compute between two points.
 */
module Points {
  import opened JsValues

  /** A point of the three-dimensional latent space. */
  datatype Coord = Coord(x: real, y: real, z: real)

  /** A parameter vector of the Benjolin synthesiser. */
  type Params = seq<real>

  /** Number of synthesiser parameters per point (`p1` .. `p8`). */
  const ParamCount: nat := 8

  /** A distance, which is never negative. */
  type NonNeg = r: real | r >= 0.0

  /** The Euclidean distance between two latent coordinates, left abstract. */
  type LatentDistance = (Coord, Coord) -> NonNeg

  /** The Euclidean distance between two parameter vectors, left abstract. */
  type ParamDistance = (Params, Params) -> NonNeg

  /**
   * The k-nearest-neighbour query of a KD-tree library: the coordinates of
   * the stored points nearest to a query point, nearest first.
   */
  type NeighbourOracle = (Coord, nat) -> seq<Coord>

  /** The `{ latent, parameters }` record of `getPointInfo` in both versions, with `null` as `None`. */
  datatype PointInfo = PointInfo(latent: Option<Coord>, parameters: Option<Params>)

  /** The dataset in its column layout: `p[j]` is the column `p<j+1>`. */
  datatype Dataset = Dataset(x: seq<real>, y: seq<real>, z: seq<real>, p: seq<seq<real>>)
  {
    /** All eleven columns describe the same points. */
    predicate Valid()
    {
      |y| == |x| && |z| == |x| && |p| == ParamCount &&
      forall j :: 0 <= j < |p| ==> |p[j]| == |x|
    }

    /** Number of points, the length of the `x` column. */
    function Size(): nat
    {
      |x|
    }

    predicate InRange(i: int)
    {
      0 <= i < |x|
    }

    /** The latent coordinate of point `i`. */
    function CoordinateAt(i: int): Coord
      requires Valid() && InRange(i)
    {
      Coord(x[i], y[i], z[i])
    }

    /** The parameter vector of point `i`, read across the eight parameter columns. */
    function ParametersAt(i: int): (r: Params)
      requires Valid() && InRange(i)
      ensures |r| == ParamCount
    {
      seq(ParamCount, j requires 0 <= j < ParamCount => p[j][i])
    }
  }

  /** Linear interpolation `u * (1 - t) + v * t`. */
  function Lerp(u: real, v: real, t: real): real
  {
    u * (1.0 - t) + v * t
  }

  /** Frame `i` of a crossfade over `steps` steps: every parameter at fraction `i / steps`. */
  function Frame(p1: Params, p2: Params, i: nat, steps: nat): (r: Params)
    requires steps > 0 && |p1| == |p2|
    ensures |r| == |p1|
  {
    seq(|p1|, j requires 0 <= j < |p1| => Lerp(p1[j], p2[j], i as real / steps as real))
  }

  /** The `steps + 1` frames of a linear crossfade from `p1` to `p2`. */
  function Crossfade(p1: Params, p2: Params, steps: nat): (r: seq<Params>)
    requires steps > 0 && |p1| == |p2|
    ensures |r| == steps + 1
  {
    seq(steps + 1, i requires 0 <= i <= steps => Frame(p1, p2, i, steps))
  }

  /** A crossfade starts exactly at `p1` and ends exactly at `p2`. */
  lemma CrossfadeEndpoints(p1: Params, p2: Params, steps: nat)
    requires steps > 0 && |p1| == |p2|
    ensures Crossfade(p1, p2, steps)[0] == p1
    ensures Crossfade(p1, p2, steps)[steps] == p2
  {
    var r := Crossfade(p1, p2, steps);
    assert r[0] == Frame(p1, p2, 0, steps);
    assert forall j :: 0 <= j < |p1| ==> r[0][j] == p1[j];
    assert r[steps] == Frame(p1, p2, steps, steps);
    assert steps as real / steps as real == 1.0;
    forall j | 0 <= j < |p1|
      ensures r[steps][j] == p2[j]
    {
      assert r[steps][j] == Lerp(p1[j], p2[j], 1.0);
    }
  }

  /** `Lerp` at a fraction in [0, 1] stays between its two ends. */
  lemma LerpBetween(u: real, v: real, t: real)
    requires 0.0 <= t <= 1.0
    ensures u <= v ==> u <= Lerp(u, v, t) <= v
    ensures v <= u ==> v <= Lerp(u, v, t) <= u
  {
    assert Lerp(u, v, t) == u + (v - u) * t;
    if u <= v {
      ScaleWithin(v - u, t);
    } else {
      ScaleWithin(u - v, t);
      assert (v - u) * t == -((u - v) * t);
    }
  }

  /** Scaling a non-negative value by a fraction in [0, 1] keeps it in [0, value]. */
  lemma ScaleWithin(d: real, t: real)
    requires d >= 0.0 && 0.0 <= t <= 1.0
    ensures 0.0 <= d * t <= d
  {
    assert d * (1.0 - t) >= 0.0;
    assert d * t == d - d * (1.0 - t);
  }

  /** Every value of every crossfade frame lies between the two end values. */
  lemma CrossfadeBetween(p1: Params, p2: Params, steps: nat, i: nat, j: nat)
    requires steps > 0 && |p1| == |p2|
    requires i <= steps && j < |p1|
    ensures p1[j] <= p2[j] ==> p1[j] <= Crossfade(p1, p2, steps)[i][j] <= p2[j]
    ensures p2[j] <= p1[j] ==> p2[j] <= Crossfade(p1, p2, steps)[i][j] <= p1[j]
  {
    var t := i as real / steps as real;
    assert 0.0 <= t <= 1.0;
    LerpBetween(p1[j], p2[j], t);
  }

  /**
   * The frame-pushing loop of `calculateCrossfade`: for `i` from 0 to
   * `steps`, push the parameters blended at `i / steps`.
   */
  method Interpolate(p1: Params, p2: Params, steps: nat) returns (frames: seq<Params>)
    requires steps > 0 && |p1| == |p2|
    ensures frames == Crossfade(p1, p2, steps)
  {
    frames := [];
    var i := 0;
    while i <= steps
      invariant 0 <= i <= steps + 1
      invariant frames == Crossfade(p1, p2, steps)[..i]
    {
      var b := i as real / steps as real;
      var a := 1.0 - b;
      var current := seq(|p1|, j requires 0 <= j < |p1| => p1[j] * a + p2[j] * b);
      assert forall j :: 0 <= j < |p1| ==> current[j] == Frame(p1, p2, i, steps)[j];
      assert current == Frame(p1, p2, i, steps);
      frames := frames + [current];
      i := i + 1;
    }
  }
}
