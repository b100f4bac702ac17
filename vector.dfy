/** Positions on the tile grid, standing in for pygame's `Vector2`.
    Every coordinate is an integer number of TENTHS of a tile, so the
    walking speed (0.1 tile), the running speed (0.2 tile) and the snap
    distance (0.1 tile) are all exact. */
module Vector {

  /** A tile is ten tenths. */
  const Tenths: int := 10

  datatype Vec = Vec(x: int, y: int) {
    function Plus(other: Vec): Vec {
      Vec(x + other.x, y + other.y)
    }
  }

  function Abs(n: int): (r: nat)
    ensures r == n || r == -n
  {
    if n < 0 then -n else n
  }

  /** A whole-tile position. */
  predicate OnGrid(v: Vec) {
    v.x % 10 == 0 && v.y % 10 == 0
  }

  /** Python's `int()` applied to a coordinate given in tenths: the tile
      index, truncated toward zero (so -0.5 becomes 0, not -1). */
  function TruncTile(t: int): (r: int)
    ensures t >= 0 ==> 0 <= r && 10 * r <= t < 10 * r + Tenths
    ensures t < 0 ==> r <= 0 && 10 * r - Tenths < t <= 10 * r
  {
    if t >= 0 then t / 10 else -((-t) / 10)
  }

  /** The two positions differ in at most one coordinate. */
  predicate Aligned(p: Vec, q: Vec) {
    p.x == q.x || p.y == q.y
  }

  /** Distance along the one axis on which aligned positions differ. */
  function Gap(p: Vec, q: Vec): nat {
    Abs(p.x - q.x) + Abs(p.y - q.y)
  }

  /** One coordinate of `Vector2.move_towards`: go toward `target` by at most
      `step`, landing exactly on it when it is no further than that. */
  function StepToward(p: int, target: int, step: nat): (r: int)
    ensures Abs(target - r) == if Abs(target - p) <= step then 0 else Abs(target - p) - step
    ensures Abs(r - p) <= step
    ensures p <= target ==> p <= r <= target
    ensures target <= p ==> target <= r <= p
  {
    if target - p > step then p + step
    else if p - target > step then p - step
    else target
  }

  /** `Vector2.move_towards` for positions that differ along one axis only;
      then the Euclidean step is a step along that axis. */
  function MoveTowards(p: Vec, target: Vec, step: nat): (r: Vec)
    requires Aligned(p, target)
    ensures Aligned(r, target)
    ensures Gap(r, target) == if Gap(p, target) <= step then 0 else Gap(p, target) - step
    ensures Gap(p, r) <= step
    ensures Gap(p, target) <= step <==> r == target
  {
    Vec(StepToward(p.x, target.x, step), StepToward(p.y, target.y, step))
  }
}
