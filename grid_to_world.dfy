/** Conversions between the environment's 15 x 15 grid and the coordinates
    of the 3D scene, and the action descriptions used in its logs. Numbers
    are exact reals. */
module GridWorld {
  import Daladala

  const GridSize := 15
  const WorldScale: real := 10.0
  const Height: real := 0.5

  /** A point of the 3D scene. */
  datatype Vec3 = Vec3(x: real, y: real, z: real)

  /** A grid cell, as returned by `worldToGrid`. */
  datatype GridCell = GridCell(x: int, y: int)

  /** `gridToWorld`: grid (7, 7) is the centre of the scene, one grid unit is
      ten scene units, grid x runs along scene x and grid y against scene z,
      at a fixed height. */
  function GridToWorld(gridX: real, gridY: real): (w: Vec3)
    ensures w.y == Height
    ensures w.x / WorldScale + 7.0 == gridX && 7.0 - w.z / WorldScale == gridY
    ensures 0.0 <= gridX <= 14.0 ==> -70.0 <= w.x <= 70.0
    ensures 0.0 <= gridY <= 14.0 ==> -70.0 <= w.z <= 70.0
  {
    var normalizedX := gridX - 7.0;
    var normalizedY := gridY - 7.0;
    Vec3(normalizedX * WorldScale, Height, -normalizedY * WorldScale)
  }

  /** Different grid positions are drawn at different places. */
  lemma GridToWorldInjective(x1: real, y1: real, x2: real, y2: real)
    requires GridToWorld(x1, y1) == GridToWorld(x2, y2)
    ensures x1 == x2 && y1 == y2
  {
  }

  /** The three landmarks of the route: the start (0, 14), the corner
      (14, 14) and the end (14, 0). */
  lemma RouteLandmarks()
    ensures GridToWorld(0.0, 14.0) == Vec3(-70.0, Height, -70.0)
    ensures GridToWorld(14.0, 14.0) == Vec3(70.0, Height, -70.0)
    ensures GridToWorld(14.0, 0.0) == Vec3(70.0, Height, 70.0)
  {
  }

  /** Each step of the environment's route moves the bus ten scene units,
      along scene x on the first leg and along scene z on the second. */
  lemma RouteStepsAreOneCell(i: int)
    requires 0 < i < |Daladala.Route|
    ensures var a := Daladala.Route[i - 1];
      var b := Daladala.Route[i];
      var wa := GridToWorld(a.x as real, a.y as real);
      var wb := GridToWorld(b.x as real, b.y as real);
      (wb.x - wa.x == WorldScale && wb.z == wa.z) || (wb.z - wa.z == WorldScale && wb.x == wa.x)
  {
    Daladala.RouteAt(i);
    Daladala.RouteAt(i - 1);
  }

  /** `Math.round`: the nearest integer, halves rounded up. */
  function Round(v: real): (r: int)
    ensures r as real - 0.5 <= v < r as real + 0.5
  {
    (v + 0.5).Floor
  }

  /** `Math.max(0, Math.min(GRID_SIZE - 1, v))`. */
  function Clamp(v: int): (r: int)
    ensures 0 <= r < GridSize
    ensures 0 <= v < GridSize ==> r == v
    ensures v < 0 ==> r == 0
    ensures v >= GridSize ==> r == GridSize - 1
  {
    if v < 0 then 0 else if v > GridSize - 1 then GridSize - 1 else v
  }

  /** The scale `worldToGrid` divides scene x by. */
  const ScaleX: real := 0.4
  /** The scale `worldToGrid` divides scene z by: `WORLD_SCALE * 0.8`. */
  const ScaleZ: real := 8.0

  /** Grid coordinate of a rescaled scene coordinate `u`: the nearest grid
      index, pinned to the border outside the grid. */
  predicate NearestOnGrid(u: real, g: int)
  {
    && 0 <= g < GridSize
    && (-0.5 <= u < (GridSize as real) - 0.5 ==> g as real - 0.5 <= u < g as real + 0.5)
    && (u < 0.5 ==> g == 0)
    && (u >= (GridSize as real) - 1.5 ==> g == GridSize - 1)
  }

  /** `worldToGrid`, as written: scene x divided by 0.4, scene z by 8, both
      shifted by half the grid size, rounded and clamped. */
  function WorldToGrid(worldX: real, worldZ: real): (g: GridCell)
    ensures NearestOnGrid(worldX / ScaleX + (GridSize as real) / 2.0, g.x)
    ensures NearestOnGrid(worldZ / ScaleZ + (GridSize as real) / 2.0, g.y)
  {
    var gridX := Round(worldX / ScaleX + (GridSize as real) / 2.0);
    var gridY := Round(worldZ / ScaleZ + (GridSize as real) / 2.0);
    GridCell(Clamp(gridX), Clamp(gridY))
  }

  /** `worldToGrid` does not undo `gridToWorld`: the start of the route,
      (0, 14), comes back as (0, 0). */
  lemma WorldToGridMissesStart()
    ensures var w := GridToWorld(0.0, 14.0);
      WorldToGrid(w.x, w.z) == GridCell(0, 0)
  {
    var w := GridToWorld(0.0, 14.0);
    assert w.x / ScaleX + 7.5 == -167.5;
    assert w.z / ScaleZ + 7.5 == -1.25;
  }

  /** The inverse of `gridToWorld`: scene x and z scaled back by ten
      units per cell and shifted by the centre (7, 7), rounded and clamped. */
  function WorldToGridInverse(worldX: real, worldZ: real): (g: GridCell)
    ensures NearestOnGrid(worldX / WorldScale + 7.0, g.x)
    ensures NearestOnGrid(7.0 - worldZ / WorldScale, g.y)
  {
    GridCell(Clamp(Round(worldX / WorldScale + 7.0)), Clamp(Round(7.0 - worldZ / WorldScale)))
  }

  /** Every cell of the grid comes back from its scene position. */
  lemma WorldToGridInverseRoundTrip(x: int, y: int)
    requires 0 <= x < GridSize && 0 <= y < GridSize
    ensures var w := GridToWorld(x as real, y as real);
      WorldToGridInverse(w.x, w.z) == GridCell(x, y)
  {
    var w := GridToWorld(x as real, y as real);
    assert w.x / WorldScale + 7.0 == x as real;
    assert 7.0 - w.z / WorldScale == y as real;
  }

  /** `lerpPosition`: the point a fraction `t` of the way from `current` to
      `target`. */
  function LerpPosition(current: Vec3, target: Vec3, t: real): (p: Vec3)
    ensures t == 0.0 ==> p == current
    ensures t == 1.0 ==> p == target
    ensures 0.0 <= t <= 1.0 ==> Between(current.x, target.x, p.x) && Between(current.y, target.y, p.y)
                                && Between(current.z, target.z, p.z)
  {
    Vec3(Lerp(current.x, target.x, t), Lerp(current.y, target.y, t), Lerp(current.z, target.z, t))
  }

  /** One coordinate of `lerpPosition`. */
  function Lerp(a: real, b: real, t: real): (r: real)
    ensures t == 0.0 ==> r == a
    ensures t == 1.0 ==> r == b
    ensures 0.0 <= t <= 1.0 ==> Between(a, b, r)
  {
    FractionOf(b - a, t);
    a + (b - a) * t
  }

  /** A fraction `t` in [0, 1] of `d` lies between 0 and `d`. */
  lemma FractionOf(d: real, t: real)
    ensures 0.0 <= t <= 1.0 && d >= 0.0 ==> 0.0 <= d * t <= d
    ensures 0.0 <= t <= 1.0 && d <= 0.0 ==> d <= d * t <= 0.0
  {
    if 0.0 <= t <= 1.0 {
      assert d - d * t == d * (1.0 - t);
      if d >= 0.0 {
        assert d * (1.0 - t) >= 0.0;
      } else {
        assert (-d) * (1.0 - t) >= 0.0;
        assert (-d) * t >= 0.0;
      }
    }
  }

  /** `v` lies between `a` and `b`, in either order. */
  predicate Between(a: real, b: real, v: real)
  {
    if a <= b then a <= v <= b else b <= v <= a
  }

  /** Interpolating from a point to itself stays there. */
  lemma LerpStill(p: Vec3, t: real)
    ensures LerpPosition(p, p, t) == p
  {
  }

  /** `getActionDescription`: the English name of each of the five actions,
      "Unknown" for any other number. */
  function GetActionDescription(action: int): (d: string)
    ensures d == "Unknown" <==> !(Daladala.Move <= action <= Daladala.SpeedUp)
  {
    if action == Daladala.Move then "Move"
    else if action == Daladala.Pickup then "Pick Up"
    else if action == Daladala.Dropoff then "Drop Off"
    else if action == Daladala.Stop then "Stop"
    else if action == Daladala.SpeedUp then "Speed Up"
    else "Unknown"
  }

  /** Distinct actions have distinct descriptions. */
  lemma DescriptionsDistinct(a: int, b: int)
    requires Daladala.Move <= a <= Daladala.SpeedUp && Daladala.Move <= b <= Daladala.SpeedUp && a != b
    ensures GetActionDescription(a) != GetActionDescription(b)
  {
  }
}
