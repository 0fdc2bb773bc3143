/** Bullets (`BulletState`): fly straight along their angle until they hit
    zombies or leave the playfield. A bullet is a value held in the game's
    bullet sequence. */
module Bullets {
  import opened Geometry
  import opened Zombies

  datatype Bullet = Bullet(pos: Vec2, angle: real, hit: bool)

  /** Distance travelled per second (`let ms = 800.0`). */
  const Speed: real := 800.0

  /** `BulletState::new(pos, angle)`: a bullet that has not hit anything. */
  function New(pos: Vec2, angle: real): Bullet
  {
    Bullet(pos, angle, false)
  }

  /** `is_dead`: spent, or strictly outside the playfield on some axis. */
  function IsDead(b: Bullet): (dead: bool)
    ensures dead <==> b.hit || !InField(b.pos)
  {
    b.pos.x < 0.0 || b.pos.x > WinW || b.pos.y < 0.0 || b.pos.y > WinH || b.hit
  }

  /** The flight step `pos += (cos angle, sin angle) * 800 * dt`. */
  function Advance(b: Bullet, dt: real, m: Maths): Vec2
  {
    Vec2(b.pos.x + m.cos(b.angle) * Speed * dt,
         b.pos.y + m.sin(b.angle) * Speed * dt)
  }

  /** Every zombie strictly closer than `Radius` to `p` takes one damage. */
  function DamageInRange(zs: seq<Zombie>, p: Vec2): seq<Zombie>
  {
    seq(|zs|, i requires 0 <= i < |zs| =>
      if Touching(zs[i].pos, p) then TakeDamage(zs[i]) else zs[i])
  }

  /** `BulletState::update` as a function of the bullet and the zombies it
      sees: a spent bullet does nothing; otherwise it moves, damages every
      zombie in range of its new position (the loop does not stop at the first
      one) and becomes spent if there was at least one. */
  function Step(b: Bullet, zs: seq<Zombie>, dt: real, m: Maths): (r: (Bullet, seq<Zombie>))
    ensures |r.1| == |zs|
    ensures forall i :: 0 <= i < |zs| ==>
              && r.1[i].pos == zs[i].pos && r.1[i].angle == zs[i].angle && r.1[i].ms == zs[i].ms
              && zs[i].hp - 1 <= r.1[i].hp <= zs[i].hp
    ensures r.0.angle == b.angle
    ensures b.hit ==> r.0.hit
  {
    if b.hit then (b, zs) else Strike(b, zs, Advance(b, dt, m))
  }

  /** A live bullet arriving at `p`: it damages every zombie in range of `p`
      and is spent iff there was one. */
  function Strike(b: Bullet, zs: seq<Zombie>, p: Vec2): (Bullet, seq<Zombie>)
  {
    (Bullet(p, b.angle, AnyTouching(zs, p)), DamageInRange(zs, p))
  }

  /** A zombie in range of `p` takes exactly one damage. */
  lemma DamageAt(zs: seq<Zombie>, p: Vec2, k: int)
    requires 0 <= k < |zs| && Touching(zs[k].pos, p)
    ensures DamageInRange(zs, p)[k] == TakeDamage(zs[k])
    ensures AnyTouching(zs, p)
  {
  }

  /** A live bullet that lands exactly on a zombie spends itself on it and
      takes one point of health from it. */
  lemma OverlapHits(b: Bullet, zs: seq<Zombie>, k: int, p: Vec2)
    requires 0 <= k < |zs| && zs[k].pos == p
    ensures Strike(b, zs, p).0.hit
    ensures Strike(b, zs, p).1[k] == TakeDamage(zs[k])
  {
    TouchingSelf(p);
    DamageAt(zs, p, k);
  }

  /** A fresh zombie survives the first bullet landing on it and is dead
      after the second; the next retention removes it. `zs1` is any zombie
      sequence between the two bullets in which zombie `k` is as the first
      one left it (the others may have changed meanwhile). */
  lemma TwoOverlapsKill(b1: Bullet, b2: Bullet, zs: seq<Zombie>, zs1: seq<Zombie>, k: int, p: Vec2)
    requires 0 <= k < |zs| && zs[k] == Zombies.New(p)
    requires 0 <= k < |zs1| && zs1[k] == Zombies.TakeDamage(zs[k])
    ensures Strike(b1, zs, p).1[k] == zs1[k]
    ensures !Zombies.IsDead(zs1[k]) && zs1[k].hp == 1
    ensures Zombies.IsDead(Strike(b2, zs1, p).1[k])
  {
    OverlapHits(b1, zs, k, p);
    OverlapHits(b2, zs1, k, p);
    TwoHitsKill(p);
  }

  /** The same for the bullet update. */
  lemma OverlapStep(b: Bullet, zs: seq<Zombie>, k: int, dt: real, m: Maths)
    requires !b.hit && 0 <= k < |zs| && zs[k].pos == Advance(b, dt, m)
    ensures Step(b, zs, dt, m).0.hit
    ensures Step(b, zs, dt, m).1[k] == TakeDamage(zs[k])
  {
    OverlapHits(b, zs, k, Advance(b, dt, m));
  }

  /** The bullet update with the source's loop over the zombies. */
  method Update(b: Bullet, zs: seq<Zombie>, dt: real, m: Maths) returns (b': Bullet, zs': seq<Zombie>)
    ensures (b', zs') == Step(b, zs, dt, m)
    // a spent bullet is inert
    ensures b.hit ==> b' == b && zs' == zs
    // an unspent one moves, and is spent afterwards iff some zombie is in range
    ensures !b.hit ==> b'.pos == Advance(b, dt, m) && b'.angle == b.angle
    ensures !b.hit ==> (b'.hit <==> exists i | 0 <= i < |zs| :: Touching(zs[i].pos, b'.pos))
    // the zombie sequence keeps its length and order; only health changes
    ensures |zs'| == |zs|
    ensures !b.hit ==> forall i :: 0 <= i < |zs| ==>
              && zs'[i].pos == zs[i].pos && zs'[i].angle == zs[i].angle && zs'[i].ms == zs[i].ms
              && zs'[i].hp == zs[i].hp - (if Touching(zs[i].pos, b'.pos) then 1 else 0)
  {
    b', zs' := b, zs;
    if !b.hit {
      b' := b.(pos := Advance(b, dt, m));
      var i := 0;
      while i < |zs'|
        invariant 0 <= i <= |zs| == |zs'|
        invariant b'.pos == Advance(b, dt, m) && b'.angle == b.angle
        invariant b'.hit <==> exists j | 0 <= j < i :: Touching(zs[j].pos, b'.pos)
        invariant forall j :: 0 <= j < i ==>
                    zs'[j] == if Touching(zs[j].pos, b'.pos) then TakeDamage(zs[j]) else zs[j]
        invariant zs'[i..] == zs[i..]
      {
        assert zs'[i] == zs[i];
        if Touching(zs'[i].pos, b'.pos) {
          zs' := zs'[i := TakeDamage(zs'[i])];
          b' := b'.(hit := true);
        }
        i := i + 1;
      }
      assert zs' == DamageInRange(zs, b'.pos);
    }
  }
}
