/** The spawner (`SpawnerState`): a cooldown timer and a spawn frequency
    that grows with game time. Whenever the cooldown has run out it appends a
    zombie at a corner chosen by a random byte and adds one to the score. */
module Spawning {
  import opened Geometry
  import Zombies

  /** A random byte (`u8`), passed in where the source draws `rand::random()`. */
  newtype uint8 = x: int | 0 <= x < 256

  /** A corner of the playfield. */
  predicate IsCorner(p: Vec2)
  {
    (p.x == 0.0 || p.x == WinW) && (p.y == 0.0 || p.y == WinH)
  }

  /** `spawn_position`: the byte range is cut into four quarters. */
  function SpawnPosition(r: uint8): (p: Vec2)
    ensures IsCorner(p)
  {
    if r <= 63 then Vec2(0.0, 0.0)
    else if r <= 127 then Vec2(0.0, WinH)
    else if r <= 191 then Vec2(WinW, 0.0)
    else Vec2(WinW, WinH)
  }

  /** The first byte of the quarter of the byte range that leads to corner `c`. */
  function ShareStart(c: Vec2): int
  {
    (if c.x == 0.0 then 0 else 128) + (if c.y == 0.0 then 0 else 64)
  }

  /** The number of byte values below `n` that lead to corner `c`. */
  function Hits(c: Vec2, n: nat): nat
    requires n <= 256
  {
    if n == 0 then 0
    else Hits(c, n - 1) + (if SpawnPosition((n - 1) as uint8) == c then 1 else 0)
  }

  lemma {:induction false} HitsBelow(c: Vec2, n: nat)
    requires IsCorner(c) && n <= 256
    ensures var k := n - ShareStart(c);
      Hits(c, n) == if k < 0 then 0 else if k > 64 then 64 else k
  {
    if n > 0 {
      HitsBelow(c, n - 1);
    }
  }

  /** Each corner is chosen by one contiguous quarter of the byte values:
      64 of the 256. */
  lemma CornerShare(c: Vec2)
    requires IsCorner(c)
    ensures forall r: uint8 :: SpawnPosition(r) == c <==> ShareStart(c) <= r as int < ShareStart(c) + 64
    ensures Hits(c, 256) == 64
  {
    HitsBelow(c, 256);
  }

  datatype Spawner = Spawner(cooldown: real, freq: real)

  /** `SpawnerState::new()` */
  const Start: Spawner := Spawner(0.0, 1.0)
  /** Spawn frequency gained per second (`let accel = 0.1`). */
  const Ramp: real := 0.1

  /** `SpawnerState::update` as a function: the new spawner, zombies and score. */
  function Step(s: Spawner, zombies: seq<Zombies.Zombie>, score: int, dt: real, r: uint8)
    : (Spawner, seq<Zombies.Zombie>, int)
    requires s.freq > 0.0
  {
    if s.cooldown <= 0.0 then
      (Spawner(1.0 / s.freq, s.freq + Ramp * dt),
       zombies + [Zombies.New(SpawnPosition(r))],
       score + 1)
    else
      (Spawner(s.cooldown - dt, s.freq + Ramp * dt), zombies, score)
  }

  /** What one spawner update promises. */
  lemma StepEffect(s: Spawner, zombies: seq<Zombies.Zombie>, score: int, dt: real, r: uint8)
    requires s.freq > 0.0
    ensures var (s', zombies', score') := Step(s, zombies, score, dt, r);
      // spawn: exactly one fresh zombie at a corner, appended; the score counts it
      && (s.cooldown <= 0.0 ==>
            && |zombies'| == |zombies| + 1 && zombies'[..|zombies|] == zombies
            && zombies'[|zombies|] == Zombies.Zombie(SpawnPosition(r), 0.0, 2, 200.0)
            && IsCorner(zombies'[|zombies|].pos)
            && s'.cooldown == 1.0 / s.freq
            && score' == score + 1)
      // otherwise only the timer runs down
      && (s.cooldown > 0.0 ==>
            zombies' == zombies && score' == score && s'.cooldown == s.cooldown - dt)
      // the frequency ramps in both cases, so it never decreases while time goes forward
      && s'.freq == s.freq + Ramp * dt
      && (dt >= 0.0 ==> s'.freq >= s.freq)
  {
  }

  class SpawnerState {
    var cooldown: real
    var freq: real

    /** The frequency never falls below its initial 1 Hz, so `1/freq` is defined. */
    ghost predicate Valid()
      reads this
    {
      freq >= 1.0
    }

    function Model(): Spawner
      reads this
    {
      Spawner(cooldown, freq)
    }

    constructor ()
      ensures Valid() && Model() == Start
    {
      cooldown := 0.0;
      freq := 1.0;
    }

    /** `spawn`: push a zombie at the chosen corner, restart the cooldown and count the spawn. */
    method Spawn(zombies: seq<Zombies.Zombie>, score: int, r: uint8)
      returns (zombies': seq<Zombies.Zombie>, score': int)
      requires Valid()
      modifies this
      ensures Valid()
      ensures zombies' == zombies + [Zombies.New(SpawnPosition(r))] && score' == score + 1
      ensures Model() == Spawner(1.0 / old(freq), old(freq))
    {
      var zomb := Zombies.New(SpawnPosition(r));
      zombies' := zombies + [zomb];
      cooldown := 1.0 / freq;
      score' := score + 1;
    }

    method Update(dt: real, zombies: seq<Zombies.Zombie>, score: int, r: uint8)
      returns (zombies': seq<Zombies.Zombie>, score': int)
      requires Valid() && dt >= 0.0
      modifies this
      ensures Valid()
      ensures (Model(), zombies', score') == Step(old(Model()), zombies, score, dt, r)
    {
      if cooldown <= 0.0 {
        zombies', score' := Spawn(zombies, score, r);
      } else {
        zombies', score' := zombies, score;
        cooldown := cooldown - dt;
      }
      freq := freq + Ramp * dt;
    }
  }
}
