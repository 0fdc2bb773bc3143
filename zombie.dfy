/** Zombies (`ZombieState`): squares that chase the player, speed up over
    their lifetime and die when their health reaches zero. A zombie is a value
    held in the game's zombie sequence; the operations that the game applies
    to it in place return the updated value. */
module Zombies {
  import opened Geometry

  datatype Zombie = Zombie(pos: Vec2, angle: real, hp: int, ms: real)

  const StartHp: int := 2
  const StartSpeed: real := 200.0
  /** Speed gained per second of lifetime (`let accel = 10.0`). */
  const Accel: real := 10.0

  /** `ZombieState::new(pos)` */
  function New(pos: Vec2): Zombie
  {
    Zombie(pos, 0.0, StartHp, StartSpeed)
  }

  /** `is_dead`: no health left; health may go below zero. */
  predicate IsDead(z: Zombie)
  {
    z.hp <= 0
  }

  /** `take_damage`: one point of health less, nothing else changes. */
  function TakeDamage(z: Zombie): (r: Zombie)
    ensures r.hp == z.hp - 1
    ensures r.pos == z.pos && r.angle == z.angle && r.ms == z.ms
    ensures IsDead(z) ==> IsDead(r)
  {
    z.(hp := z.hp - 1)
  }

  /** A new zombie survives one hit and dies of the second. */
  lemma TwoHitsKill(pos: Vec2)
    ensures !IsDead(New(pos)) && !IsDead(TakeDamage(New(pos)))
    ensures IsDead(TakeDamage(TakeDamage(New(pos))))
  {
  }

  /** `ZombieState::update`: step towards `target` along the normalised
      difference at the current speed, then speed up by `Accel * dt` and face
      along the step. */
  function Step(z: Zombie, target: Vec2, dt: real, m: Maths): (r: Zombie)
    ensures r.hp == z.hp
    ensures IsDead(r) == IsDead(z)
    ensures r.ms - z.ms == Accel * dt
    ensures dt >= 0.0 ==> r.ms >= z.ms
  {
    var md := m.normalize(target.Minus(z.pos));
    Zombie(z.pos.Plus(md.Scale(dt * z.ms)),
           m.pointDirection(Origin, md),
           z.hp,
           z.ms + Accel * dt)
  }

  /** Some zombie of `zs` is strictly closer than `Radius` to `p`. */
  predicate AnyTouching(zs: seq<Zombie>, p: Vec2)
  {
    exists i | 0 <= i < |zs| :: Touching(zs[i].pos, p)
  }
}
