/** The player (`PlayerState`): moves with the direction keys, aims at the
    mouse, fires when the cooldown has run out, and dies on contact with a
    zombie. */
module Players {
  import opened Geometry
  import opened Input
  import Zombies
  import Bullets

  datatype Player = Player(pos: Vec2, angle: real, cooldown: real)

  /** `PlayerState::new()` */
  const Start: Player := Player(Vec2(360.0, 360.0), 0.0, 0.0)
  /** Distance moved per second (`let ms = 300.0`). */
  const Speed: real := 300.0
  /** Seconds between two shots. */
  const FireDelay: real := 0.2

  /** `PlayerState::update` as a function: the new player, the bullet
      sequence and the dead flag. The zombies are only read. */
  function Step(p: Player, input: Input, bullets: seq<Bullets.Bullet>, zombies: seq<Zombies.Zombie>,
                dead: bool, dt: real, m: Maths): (Player, seq<Bullets.Bullet>, bool)
  {
    var pos := p.pos.Plus(MoveDir(input, m).Scale(dt * Speed));
    var angle := m.pointDirection(input.mousePos, pos);
    var dead' := dead || Zombies.AnyTouching(zombies, pos);
    if p.cooldown > 0.0 then
      (Player(pos, angle, p.cooldown - dt), bullets, dead')
    else if input.shoot then
      (Player(pos, angle, FireDelay), bullets + [Bullets.New(pos, angle)], dead')
    else
      (Player(pos, angle, p.cooldown), bullets, dead')
  }

  /** What one player update promises. */
  lemma StepEffect(p: Player, input: Input, bullets: seq<Bullets.Bullet>, zombies: seq<Zombies.Zombie>,
                   dead: bool, dt: real, m: Maths)
    ensures var (p', bullets', dead') := Step(p, input, bullets, zombies, dead, dt, m);
      // the dead flag is never cleared, and is set by any zombie in contact
      && (dead ==> dead')
      && (dead' <==> dead || exists i | 0 <= i < |zombies| :: Touching(zombies[i].pos, p'.pos))
      // firing appends exactly one fresh bullet at the player, and only then
      && (p.cooldown <= 0.0 && input.shoot ==>
            bullets' == bullets + [Bullets.Bullet(p'.pos, p'.angle, false)] && p'.cooldown == FireDelay)
      && (!(p.cooldown <= 0.0 && input.shoot) ==> bullets' == bullets)
      // a running cooldown counts down; a run-out one stays put while fire is not held
      && (p.cooldown > 0.0 ==> p'.cooldown == p.cooldown - dt)
      && (p.cooldown <= 0.0 && !input.shoot ==> p'.cooldown == p.cooldown)
      // the player faces along the bearing from the mouse to its new position
      && p'.angle == m.pointDirection(input.mousePos, p'.pos)
      // the move follows the direction keys
      && p'.pos == p.pos.Plus(MoveDir(input, m).Scale(dt * Speed))
  {
  }

  /** With no direction held (or each pair held together) the player stays put. */
  lemma StillWithoutDirection(p: Player, input: Input, bullets: seq<Bullets.Bullet>, zombies: seq<Zombies.Zombie>,
                              dead: bool, dt: real, m: Maths)
    requires input.left == input.right && input.up == input.down
    ensures Step(p, input, bullets, zombies, dead, dt, m).0.pos == p.pos
  {
    assert MoveDir(input, m) == Origin;
    assert Origin.Scale(dt * Speed) == Origin;
  }

  class PlayerState {
    var pos: Vec2
    var angle: real
    var cooldown: real

    function Model(): Player
      reads this
    {
      Player(pos, angle, cooldown)
    }

    constructor ()
      ensures Model() == Start
    {
      pos := Vec2(360.0, 360.0);
      angle := 0.0;
      cooldown := 0.0;
    }

    /** `PlayerState::update`: `bullets` and `dead` are the source's `&mut`
        arguments, passed in and returned. */
    method Update(input: InputState, bullets: seq<Bullets.Bullet>, zombies: seq<Zombies.Zombie>,
                  dead: bool, dt: real, m: Maths) returns (bullets': seq<Bullets.Bullet>, dead': bool)
      modifies this
      ensures (Model(), bullets', dead') == Step(old(Model()), input.Snapshot(), bullets, zombies, dead, dt, m)
    {
      var snapshot := input.Snapshot();
      // movement
      pos := pos.Plus(MoveDir(snapshot, m).Scale(dt * Speed));
      angle := m.pointDirection(input.mousePos, pos);
      // shooting
      bullets' := bullets;
      if cooldown > 0.0 {
        cooldown := cooldown - dt;
      } else if input.shoot {
        bullets' := Shoot(bullets);
      }
      // getting hit
      dead' := dead;
      var i := 0;
      while i < |zombies|
        invariant 0 <= i <= |zombies|
        invariant dead' == (dead || exists j | 0 <= j < i :: Touching(zombies[j].pos, pos))
      {
        if Touching(zombies[i].pos, pos) {
          dead' := true;
        }
        i := i + 1;
      }
    }

    /** `shoot`: push a bullet at the player's position and angle and restart the cooldown. */
    method Shoot(bullets: seq<Bullets.Bullet>) returns (bullets': seq<Bullets.Bullet>)
      modifies this
      ensures bullets' == bullets + [Bullets.New(pos, angle)]
      ensures Model() == old(Model()).(cooldown := FireDelay)
    {
      bullets' := bullets + [Bullets.New(pos, angle)];
      cooldown := FireDelay;
    }
  }
}
