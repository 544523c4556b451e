/**
  The wire records of the battle-snake protocol that the session store walks:
  coordinates, snakes and boards, the four moves, and the signed per-axis
  distance between two coordinates.
*/
module Codec {
  import opened Wrappers

  /** 2^32: the number of distinct `u32` (and `i32`) bit patterns. */
  const U32_LIMIT: int := 0x1_0000_0000
  const I32_MIN: int := -0x8000_0000
  const I32_MAX: int := 0x7FFF_FFFF

  type U8 = x: int | 0 <= x < 0x100
  type U32 = x: int | 0 <= x < 0x1_0000_0000
  type U64 = x: int | 0 <= x < 0x1_0000_0000_0000_0000
  type I32 = x: int | -0x8000_0000 <= x <= 0x7FFF_FFFF

  /** A grid position. Equality and ordering are the derived ones. */
  datatype Coord = Coord(x: U32, y: U32)

  /** The signed per-axis difference between two coordinates. */
  datatype Distance = Distance(x: I32, y: I32)

  /** One snake as the referee reports it; `body` is head first. */
  datatype BattleSnake = BattleSnake(id: string, name: string, health: U8, body: seq<Coord>, head: Coord, length: U32)

  /** One turn's snapshot. `weight` is the field's name in the wire record. */
  datatype Board = Board(height: U64, weight: Option<U64>, food: seq<Coord>, hazards: seq<Coord>, snakes: seq<BattleSnake>)

  /** The move the server answers with. */
  datatype Action = Up | Down | Left | Right

  /** The result of a three-way comparison. */
  datatype Ordering = Less | Equal | Greater

  // ---------------------------------------------------------------------------
  // Derived equality and ordering of Coord

  function CompareU32(a: U32, b: U32): (o: Ordering)
    ensures o == Less <==> a < b
    ensures o == Equal <==> a == b
    ensures o == Greater <==> a > b
  {
    if a < b then Less else if a == b then Equal else Greater
  }

  /** The derived `Ord::cmp`: compare `x`, and only when those tie compare `y`. */
  function Cmp(a: Coord, b: Coord): (o: Ordering)
    ensures o == Equal <==> a == b
    ensures o == Less <==> a.x < b.x || (a.x == b.x && a.y < b.y)
    ensures o == Greater <==> a.x > b.x || (a.x == b.x && a.y > b.y)
  {
    match CompareU32(a.x, b.x)
    case Equal => CompareU32(a.y, b.y)
    case other => other
  }

  function Reverse(o: Ordering): Ordering
  {
    match o
    case Less => Greater
    case Equal => Equal
    case Greater => Less
  }

  /** `a <= b` under the derived ordering. */
  predicate Le(a: Coord, b: Coord)
  {
    Cmp(a, b) != Greater
  }

  /** The derived equality compares field by field. */
  lemma CoordEquality(a: Coord, b: Coord)
    ensures a == b <==> a.x == b.x && a.y == b.y
  {
  }

  /** Swapping the operands reverses the comparison. */
  lemma CmpAntisymmetric(a: Coord, b: Coord)
    ensures Cmp(b, a) == Reverse(Cmp(a, b))
  {
  }

  /** `Le` is a total order: reflexive, antisymmetric, transitive and total. */
  lemma LeIsTotalOrder(a: Coord, b: Coord, c: Coord)
    ensures Le(a, a)
    ensures Le(a, b) && Le(b, a) ==> a == b
    ensures Le(a, b) && Le(b, c) ==> Le(a, c)
    ensures Le(a, b) || Le(b, a)
  {
  }

  // ---------------------------------------------------------------------------
  // Coord::distance

  /** `v as i32` for a `u32`: the same 32 bits read in two's complement. */
  function AsI32(v: U32): (r: I32)
    ensures r % U32_LIMIT == v
    ensures v <= I32_MAX ==> r == v
    ensures v > I32_MAX ==> r < 0
  {
    if v <= I32_MAX then v else v - U32_LIMIT
  }

  /** `a - b` on `i32` as a release build computes it: the difference wraps modulo 2^32. */
  function WrappingSub(a: I32, b: I32): (r: I32)
    ensures r % U32_LIMIT == (a - b) % U32_LIMIT
    ensures I32_MIN <= a - b <= I32_MAX ==> r == a - b
  {
    var d := (a - b) % U32_LIMIT;
    if d <= I32_MAX then d else d - U32_LIMIT
  }

  predicate FitsI32(c: Coord)
  {
    c.x <= I32_MAX && c.y <= I32_MAX
  }

  /** `a.distance(b)`: each axis is `a as i32 - b as i32`. */
  function CoordDistance(a: Coord, b: Coord): (d: Distance)
    ensures d.x % U32_LIMIT == (a.x - b.x) % U32_LIMIT
    ensures d.y % U32_LIMIT == (a.y - b.y) % U32_LIMIT
  {
    var dx := WrappingSub(AsI32(a.x), AsI32(b.x));
    var dy := WrappingSub(AsI32(a.y), AsI32(b.y));
    ModuloCongruence(AsI32(a.x), a.x, AsI32(b.x), b.x);
    ModuloCongruence(AsI32(a.y), a.y, AsI32(b.y), b.y);
    Distance(dx, dy)
  }

  /** Differences of numbers congruent modulo 2^32 are congruent modulo 2^32. */
  lemma ModuloCongruence(a: int, a': int, b: int, b': int)
    requires a % U32_LIMIT == a' % U32_LIMIT
    requires b % U32_LIMIT == b' % U32_LIMIT
    ensures (a - b) % U32_LIMIT == (a' - b') % U32_LIMIT
  {
  }

  /** When every component fits in `i32`, the distance is the exact difference: nothing wraps. */
  lemma DistanceIsExact(a: Coord, b: Coord)
    requires FitsI32(a) && FitsI32(b)
    ensures CoordDistance(a, b) == Distance(a.x - b.x, a.y - b.y)
  {
  }

  /** A coordinate is at distance zero from itself, whatever its size. */
  lemma DistanceToSelf(a: Coord)
    ensures CoordDistance(a, a) == Distance(0, 0)
  {
  }

  /** Within the bound, swapping the operands negates both components. */
  lemma DistanceAntisymmetric(a: Coord, b: Coord)
    requires FitsI32(a) && FitsI32(b)
    ensures CoordDistance(b, a) == Distance(-CoordDistance(a, b).x, -CoordDistance(a, b).y)
  {
    DistanceIsExact(a, b);
    DistanceIsExact(b, a);
  }

  /** Within the bound, each component lies in [-i32::MAX, i32::MAX]. */
  lemma DistanceBounded(a: Coord, b: Coord)
    requires FitsI32(a) && FitsI32(b)
    ensures -I32_MAX <= CoordDistance(a, b).x <= I32_MAX
    ensures -I32_MAX <= CoordDistance(a, b).y <= I32_MAX
  {
    DistanceIsExact(a, b);
  }

  /** Past the bound the cast wraps: x = 2^31 reads as i32::MIN, so a point to the right gets a negative distance. */
  lemma DistanceWrapsPastBound()
    ensures CoordDistance(Coord(0x8000_0000, 0), Coord(0, 0)).x == I32_MIN
  {
  }

  /** Every `Action` is one of the four moves. */
  lemma ActionHasFourVariants(a: Action)
    ensures a in {Up, Down, Left, Right}
    ensures |{Up, Down, Left, Right}| == 4
  {
  }
}
