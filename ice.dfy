/**
 * Ice-cube placement records. Turning ice on drops a fixed batch of cubes,
 * each placed from four draws of the random source (in [0, 1)) and revealed
 * after a delay that grows with its index. Each cube's id adds its index to
 * a reading of the wall clock taken while that cube is built, so a batch
 * comes with one clock reading per cube, `clock`.
 */
module IceCubes {
  const CubeCount: nat := 5
  /** Draws per cube, in the order they are taken: x, y, rotation, size. */
  const DrawsPerCube: nat := 4
  const RevealStagger: real := 0.12

  datatype IceCube = IceCube(id: int, delay: real, x: real, y: real, rotation: real, size: real)

  /** A batch of random draws as the source supplies them: enough for one batch, each in [0, 1). */
  predicate ValidDraws(draws: seq<real>)
  {
    |draws| == CubeCount * DrawsPerCube &&
    forall k :: 0 <= k < |draws| ==> 0.0 <= draws[k] < 1.0
  }

  /** The clock readings taken while a batch is built, one per cube. */
  predicate ValidClock(clock: seq<int>)
  {
    |clock| == CubeCount
  }

  /** The clock did not go backwards while the batch was built. */
  predicate NonDecreasing(clock: seq<int>)
  {
    forall i, j :: 0 <= i <= j < |clock| ==> clock[i] <= clock[j]
  }

  /** Where a cube may lie: the percentages and pixel sizes the placement formulas can produce. */
  predicate InBounds(c: IceCube)
  {
    10.0 <= c.x < 70.0 && 10.0 <= c.y < 80.0 &&
    0.0 <= c.rotation < 360.0 && 24.0 <= c.size < 32.0
  }

  /** The cubes' ids are pairwise distinct (they serve as rendering keys). */
  predicate DistinctIds(cubes: seq<IceCube>)
  {
    forall i, j :: 0 <= i < |cubes| && 0 <= j < |cubes| && i != j ==> cubes[i].id != cubes[j].id
  }

  /** A well-formed batch: the right size and every cube in bounds. */
  predicate WellFormed(cubes: seq<IceCube>)
  {
    |cubes| == CubeCount &&
    forall i :: 0 <= i < |cubes| ==> InBounds(cubes[i])
  }

  /** Cube `i` of a batch, built at clock reading `time` from draws `4i .. 4i+3`. */
  function Cube(time: int, i: nat, draws: seq<real>): (c: IceCube)
    requires DrawsPerCube * i + 3 < |draws|
    requires forall k :: 0 <= k < |draws| ==> 0.0 <= draws[k] < 1.0
    ensures InBounds(c)
    ensures c.id == time + i && c.delay == i as real * RevealStagger
  {
    var base := DrawsPerCube * i;
    IceCube(
      time + i,
      i as real * RevealStagger,
      10.0 + draws[base] * 60.0,
      10.0 + draws[base + 1] * 70.0,
      draws[base + 2] * 360.0,
      24.0 + draws[base + 3] * 8.0)
  }

  /**
   * The batch dropped when ice is turned on. Its ids are distinct, and in
   * fact increasing, whenever the clock did not go backwards meanwhile.
   */
  function MakeCubes(clock: seq<int>, draws: seq<real>): (cubes: seq<IceCube>)
    requires ValidClock(clock) && ValidDraws(draws)
    ensures WellFormed(cubes)
    ensures forall i :: 0 <= i < |cubes| ==> cubes[i] == Cube(clock[i], i, draws)
    ensures forall i, j :: 0 <= i < j < |cubes| ==> cubes[i].delay < cubes[j].delay
    ensures NonDecreasing(clock) ==> forall i, j :: 0 <= i < j < |cubes| ==> cubes[i].id < cubes[j].id
    ensures NonDecreasing(clock) ==> DistinctIds(cubes)
  {
    seq(CubeCount, i requires 0 <= i < CubeCount => Cube(clock[i], i, draws))
  }

  /**
   * Distinct ids rest on the clock: if it steps back by one millisecond
   * between the first two cubes, those two cubes get the same id.
   */
  lemma ClockStepBackDuplicatesId(t: int, draws: seq<real>)
    requires ValidDraws(draws)
    ensures var cubes := MakeCubes([t, t - 1, t - 1, t - 1, t - 1], draws);
            cubes[0].id == cubes[1].id && !DistinctIds(cubes)
  {
  }
}
