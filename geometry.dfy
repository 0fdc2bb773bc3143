/** Plane geometry shared by every entity of the game: positions, the
    playfield and the contact test. Coordinates are exact reals standing for
    the game's `f32` values; the transcendental operations the game uses are
    not computed here but supplied from outside as a `Maths` value. */
module Geometry {

  /** A position or displacement in the plane (`na::Vector2<f32>`). */
  datatype Vec2 = Vec2(x: real, y: real)
  {
    function Plus(o: Vec2): Vec2 { Vec2(x + o.x, y + o.y) }

    function Minus(o: Vec2): Vec2 { Vec2(x - o.x, y - o.y) }

    function Scale(k: real): Vec2 { Vec2(x * k, y * k) }

    /** The square of the Euclidean norm. */
    function NormSq(): real { x * x + y * y }
  }

  const Origin: Vec2 := Vec2(0.0, 0.0)

  /** Window width and height (`WIN_W`, `WIN_H`). */
  const WinW: real := 800.0
  const WinH: real := 600.0

  /** Half side of the player and zombie squares, also the contact distance. */
  const Radius: real := 16.0

  function DistSq(a: Vec2, b: Vec2): (d: real)
    ensures d >= 0.0
  {
    var diff := a.Minus(b);
    // squares are non-negative; the solver needs this stated
    assert diff.x * diff.x >= 0.0 && diff.y * diff.y >= 0.0;
    diff.NormSq()
  }

  /** `(a - b).norm() < 16`. A norm is never negative, so comparing it with 16
      is the same as comparing its square with 256. */
  predicate Touching(a: Vec2, b: Vec2)
  {
    DistSq(a, b) < Radius * Radius
  }

  /** Every point touches itself. */
  lemma TouchingSelf(p: Vec2)
    ensures Touching(p, p)
  {
    assert p.Minus(p) == Origin;
  }

  /** The closed playfield [0, WIN_W] x [0, WIN_H]; its boundary belongs to it. */
  predicate InField(p: Vec2)
  {
    0.0 <= p.x <= WinW && 0.0 <= p.y <= WinH
  }

  /** The floating-point and transcendental operations of the game, left
      uninterpreted: `normalize()` on vectors, `cos`/`sin` of an angle and the
      bearing function `point_direction(from, to)`. */
  datatype Maths = Maths(
    normalize: Vec2 -> Vec2,
    cos: real -> real,
    sin: real -> real,
    pointDirection: (Vec2, Vec2) -> real)
}
