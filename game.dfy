/** The game state (`MainState`) and its per-frame step (`EventHandler::update`):
    while the player is alive, update player, spawner, every bullet and every
    zombie in this order, then drop dead zombies and bullets; once the player
    is dead, only the restart key matters, and it resets the game. */
module Game {
  import opened Geometry
  import opened Input
  import Zombies
  import Bullets
  import Players
  import Spawning
  import opened Retention

  type Zombie = Zombies.Zombie
  type Bullet = Bullets.Bullet

  /** The value of a `MainState`. */
  datatype World = World(
    player: Players.Player,
    input: Input,
    zombies: seq<Zombie>,
    bullets: seq<Bullet>,
    spawner: Spawning.Spawner,
    score: int,
    dead: bool)

  /** What every reachable state satisfies: the spawn frequency has not
      dropped below its initial value, so the spawn cooldown `1/freq` is defined. */
  predicate Inv(w: World)
  {
    w.spawner.freq >= 1.0
  }

  /** `MainState::new()` */
  const Fresh: World := World(Players.Start, Released, [], [], Spawning.Start, 0, false)

  /** `reset`: everything but the input back to the start. */
  function AfterReset(w: World): World
  {
    World(Players.Start, w.input, [], [], Spawning.Start, 0, false)
  }

  lemma ResetEffect(w: World)
    ensures AfterReset(AfterReset(w)) == AfterReset(w)
    ensures AfterReset(w) == Fresh.(input := w.input)
    ensures Inv(AfterReset(w))
  {
  }

  /** The retention predicates: `!z.is_dead()` and `!b.is_dead()`. */
  function LiveZombie(z: Zombie): bool
  {
    !Zombies.IsDead(z)
  }

  function LiveBullet(b: Bullet): bool
  {
    !Bullets.IsDead(b)
  }

  /** The bullet loop of a frame: bullets are updated in order, each one
      against the zombies as the bullets before it left them. */
  function BulletsPass(bs: seq<Bullet>, zs: seq<Zombie>, dt: real, m: Maths)
    : (r: (seq<Bullet>, seq<Zombie>))
    ensures |r.0| == |bs| && |r.1| == |zs|
    decreases |bs|
  {
    if bs == [] then ([], zs)
    else
      var before := BulletsPass(bs[..|bs| - 1], zs, dt, m);
      var last := Bullets.Step(bs[|bs| - 1], before.1, dt, m);
      (before.0 + [last.0], last.1)
  }

  /** The bullet loop damages zombies and nothing else about them, by at most
      one point per bullet; spent bullets take no part in it. */
  lemma {:induction false} BulletsPassEffect(bs: seq<Bullet>, zs: seq<Zombie>, dt: real, m: Maths)
    ensures var r := BulletsPass(bs, zs, dt, m);
      && (forall i :: 0 <= i < |zs| ==>
            && r.1[i].pos == zs[i].pos && r.1[i].angle == zs[i].angle && r.1[i].ms == zs[i].ms
            && zs[i].hp - |bs| <= r.1[i].hp <= zs[i].hp)
      && (forall j :: 0 <= j < |bs| && bs[j].hit ==> r.0[j] == bs[j])
      && ((forall j :: 0 <= j < |bs| ==> bs[j].hit) ==> r.1 == zs)
    decreases |bs|
  {
    if bs != [] {
      var init := bs[..|bs| - 1];
      BulletsPassEffect(init, zs, dt, m);
      var before := BulletsPass(init, zs, dt, m);
      var last := Bullets.Step(bs[|bs| - 1], before.1, dt, m);
      assert BulletsPass(bs, zs, dt, m) == (before.0 + [last.0], last.1);
      forall j | 0 <= j < |bs| && bs[j].hit
        ensures BulletsPass(bs, zs, dt, m).0[j] == bs[j]
      {
        if j < |bs| - 1 {
          assert init[j] == bs[j];
        }
      }
      if forall j :: 0 <= j < |bs| ==> bs[j].hit {
        assert forall j :: 0 <= j < |init| ==> init[j].hit by {
          forall j | 0 <= j < |init| ensures init[j].hit {
            assert init[j] == bs[j];
          }
        }
      }
    }
  }

  /** The bullet loop of `update`, over the source's `iter_mut`. */
  method UpdateBullets(bs: seq<Bullet>, zs: seq<Zombie>, dt: real, m: Maths)
    returns (bs': seq<Bullet>, zs': seq<Zombie>)
    ensures (bs', zs') == BulletsPass(bs, zs, dt, m)
  {
    bs', zs' := bs, zs;
    var i := 0;
    while i < |bs|
      invariant 0 <= i <= |bs| == |bs'|
      invariant (bs'[..i], zs') == BulletsPass(bs[..i], zs, dt, m)
      invariant bs'[i..] == bs[i..]
    {
      assert bs[..i + 1][..i] == bs[..i];
      assert bs'[i] == bs[i];
      var b, z := Bullets.Update(bs'[i], zs', dt, m);
      ghost var done := bs'[..i];
      bs' := bs'[i := b];
      zs' := z;
      assert bs'[..i + 1] == done + [b];
      i := i + 1;
    }
    assert bs[..|bs|] == bs && bs'[..|bs|] == bs';
  }

  /** The zombie loop of a frame: every zombie steps towards the player. */
  function ZombiesPass(zs: seq<Zombie>, target: Vec2, dt: real, m: Maths): (r: seq<Zombie>)
    ensures |r| == |zs|
    ensures forall i :: 0 <= i < |zs| ==> r[i].hp == zs[i].hp && LiveZombie(r[i]) == LiveZombie(zs[i])
  {
    seq(|zs|, i requires 0 <= i < |zs| => Zombies.Step(zs[i], target, dt, m))
  }

  /** The zombie loop of `update`. */
  method UpdateZombies(zs: seq<Zombie>, target: Vec2, dt: real, m: Maths) returns (zs': seq<Zombie>)
    ensures zs' == ZombiesPass(zs, target, dt, m)
  {
    zs' := zs;
    var i := 0;
    while i < |zs'|
      invariant 0 <= i <= |zs| == |zs'|
      invariant forall j :: 0 <= j < i ==> zs'[j] == Zombies.Step(zs[j], target, dt, m)
      invariant zs'[i..] == zs[i..]
    {
      assert zs'[i] == zs[i];
      zs' := zs'[i := Zombies.Step(zs'[i], target, dt, m)];
      i := i + 1;
    }
  }

  /** The updates of an alive frame, in the source's order: player, spawner,
      each bullet, each zombie (which chases the player's new position). */
  function Advanced(w: World, dt: real, r: Spawning.uint8, m: Maths): (w': World)
    requires Inv(w) && dt >= 0.0
    ensures Inv(w') && w'.input == w.input
  {
    var pl := Players.Step(w.player, w.input, w.bullets, w.zombies, w.dead, dt, m);
    var sp := Spawning.Step(w.spawner, w.zombies, w.score, dt, r);
    var bz := BulletsPass(pl.1, sp.1, dt, m);
    var zs := ZombiesPass(bz.1, pl.0.pos, dt, m);
    World(pl.0, w.input, zs, bz.0, sp.0, sp.2, pl.2)
  }

  /** The end-of-frame `retain` calls on both sequences. */
  function Retain(w: World): World
  {
    w.(zombies := Filter(w.zombies, LiveZombie), bullets := Filter(w.bullets, LiveBullet))
  }

  /** Retention keeps exactly the live zombies and bullets and touches
      nothing else; retaining again changes nothing. */
  lemma RetainExact(w: World)
    ensures forall z :: z in Retain(w).zombies <==> z in w.zombies && !Zombies.IsDead(z)
    ensures forall b :: b in Retain(w).bullets <==> b in w.bullets && !b.hit && InField(b.pos)
    ensures Retain(w).(zombies := w.zombies, bullets := w.bullets) == w
    ensures Retain(Retain(w)) == Retain(w)
  {
    forall z ensures z in Retain(w).zombies <==> z in w.zombies && !Zombies.IsDead(z) {
      FilterMember(w.zombies, LiveZombie, z);
    }
    forall b ensures b in Retain(w).bullets <==> b in w.bullets && !b.hit && InField(b.pos) {
      FilterMember(w.bullets, LiveBullet, b);
    }
    FilterIdempotent(w.zombies, LiveZombie);
    FilterIdempotent(w.bullets, LiveBullet);
  }

  /** Surviving zombies keep their relative order. */
  lemma RetainZombieOrder(w: World, i: int, j: int)
    requires 0 <= i < j < |w.zombies|
    requires !Zombies.IsDead(w.zombies[i]) && !Zombies.IsDead(w.zombies[j])
    ensures exists p, q :: 0 <= p < q < |Retain(w).zombies| &&
              Retain(w).zombies[p] == w.zombies[i] && Retain(w).zombies[q] == w.zombies[j]
  {
    FilterOrder(w.zombies, LiveZombie, i, j);
    var p, q := |Filter(w.zombies[..i], LiveZombie)|, |Filter(w.zombies[..j], LiveZombie)|;
    assert Retain(w).zombies[p] == w.zombies[i] && Retain(w).zombies[q] == w.zombies[j];
  }

  /** Surviving bullets keep their relative order. */
  lemma RetainBulletOrder(w: World, i: int, j: int)
    requires 0 <= i < j < |w.bullets|
    requires !Bullets.IsDead(w.bullets[i]) && !Bullets.IsDead(w.bullets[j])
    ensures exists p, q :: 0 <= p < q < |Retain(w).bullets| &&
              Retain(w).bullets[p] == w.bullets[i] && Retain(w).bullets[q] == w.bullets[j]
  {
    FilterOrder(w.bullets, LiveBullet, i, j);
    var p, q := |Filter(w.bullets[..i], LiveBullet)|, |Filter(w.bullets[..j], LiveBullet)|;
    assert Retain(w).bullets[p] == w.bullets[i] && Retain(w).bullets[q] == w.bullets[j];
  }

  /** `EventHandler::update`: one frame of `dt` seconds; `r` is the random
      byte the spawner would draw if it spawns in this frame. */
  function Frame(w: World, dt: real, r: Spawning.uint8, m: Maths): (w': World)
    requires Inv(w) && dt >= 0.0
    ensures Inv(w')
    ensures w'.input == w.input
  {
    if !w.dead then Retain(Advanced(w, dt, r, m))
    else if w.input.restart then
      AfterReset(w)
    else
      w
  }

  /** A frame spawns exactly when the player is alive and the cooldown is over. */
  predicate Spawns(w: World)
  {
    !w.dead && w.spawner.cooldown <= 0.0
  }

  /** A frame resets exactly when the player is dead and restart is held. */
  predicate Restarts(w: World)
  {
    w.dead && w.input.restart
  }

  /** While dead, a frame changes nothing unless restart is held, and then it resets. */
  lemma FrameWhileDead(w: World, dt: real, r: Spawning.uint8, m: Maths)
    requires Inv(w) && dt >= 0.0 && w.dead
    ensures Frame(w, dt, r, m) == if w.input.restart then AfterReset(w) else w
  {
  }

  /** What an alive frame promises. */
  lemma FrameAlive(w: World, dt: real, r: Spawning.uint8, m: Maths)
    requires Inv(w) && dt >= 0.0 && !w.dead
    ensures var w' := Frame(w, dt, r, m);
      // retention leaves no dead zombie and no dead (spent or escaped) bullet
      && (forall i :: 0 <= i < |w'.zombies| ==> !Zombies.IsDead(w'.zombies[i]))
      && (forall i :: 0 <= i < |w'.bullets| ==>
            !w'.bullets[i].hit && InField(w'.bullets[i].pos))
      // the player dies iff a zombie that was there before the spawn touches it
      && (w'.dead <==> exists i | 0 <= i < |w.zombies| :: Touching(w.zombies[i].pos, w'.player.pos))
      // the score counts this frame's spawn, and the frequency keeps ramping
      && w'.score == w.score + (if w.spawner.cooldown <= 0.0 then 1 else 0)
      && w'.spawner.freq == w.spawner.freq + Spawning.Ramp * dt
  {
    var a := Advanced(w, dt, r, m);
    var w' := Frame(w, dt, r, m);
    assert w' == Retain(a);
    RetainExact(a);
    forall i | 0 <= i < |w'.zombies| ensures !Zombies.IsDead(w'.zombies[i]) {
      assert w'.zombies[i] in w'.zombies;
    }
    forall i | 0 <= i < |w'.bullets| ensures !w'.bullets[i].hit && InField(w'.bullets[i].pos) {
      assert w'.bullets[i] in w'.bullets;
    }
    Players.StepEffect(w.player, w.input, w.bullets, w.zombies, w.dead, dt, m);
    Spawning.StepEffect(w.spawner, w.zombies, w.score, dt, r);
  }

  /** The score of one frame: reset to zero, one more for a spawn, or unchanged. */
  lemma FrameScore(w: World, dt: real, r: Spawning.uint8, m: Maths)
    requires Inv(w) && dt >= 0.0
    ensures Frame(w, dt, r, m).score ==
              if Restarts(w) then 0 else if Spawns(w) then w.score + 1 else w.score
  {
    if !w.dead {
      Spawning.StepEffect(w.spawner, w.zombies, w.score, dt, r);
    }
  }

  /** One frame of the host loop: its delta time and the random byte. */
  datatype Tick = Tick(dt: real, byte: Spawning.uint8)

  predicate Forward(ticks: seq<Tick>)
  {
    forall i :: 0 <= i < |ticks| ==> ticks[i].dt >= 0.0
  }

  /** A run of frames with the input held constant. */
  function Run(w: World, ticks: seq<Tick>, m: Maths): (w': World)
    requires Inv(w) && Forward(ticks)
    ensures Inv(w') && w'.input == w.input
    decreases |ticks|
  {
    if ticks == [] then w
    else Run(Frame(w, ticks[0].dt, ticks[0].byte, m), ticks[1..], m)
  }

  /** `n` plus the number of spawn events of a run, counted from zero again
      at each reset. */
  function Tally(w: World, ticks: seq<Tick>, m: Maths, n: int): int
    requires Inv(w) && Forward(ticks)
    decreases |ticks|
  {
    if ticks == [] then n
    else
      Tally(Frame(w, ticks[0].dt, ticks[0].byte, m), ticks[1..], m,
            if Restarts(w) then 0 else if Spawns(w) then n + 1 else n)
  }

  /** The score counts spawn events since the last reset, not kills. */
  lemma {:induction false} ScoreCountsSpawns(w: World, ticks: seq<Tick>, m: Maths)
    requires Inv(w) && Forward(ticks)
    ensures Run(w, ticks, m).score == Tally(w, ticks, m, w.score)
    decreases |ticks|
  {
    if ticks != [] {
      FrameScore(w, ticks[0].dt, ticks[0].byte, m);
      ScoreCountsSpawns(Frame(w, ticks[0].dt, ticks[0].byte, m), ticks[1..], m);
    }
  }

  /** Once dead, and with restart not held, the game stays exactly as it is. */
  lemma {:induction false} FrozenWhileDead(w: World, ticks: seq<Tick>, m: Maths)
    requires Inv(w) && Forward(ticks) && w.dead && !w.input.restart
    ensures Run(w, ticks, m) == w
    decreases |ticks|
  {
    if ticks != [] {
      FrameWhileDead(w, ticks[0].dt, ticks[0].byte, m);
      FrozenWhileDead(w, ticks[1..], m);
    }
  }

  /** Without resets the spawn frequency never decreases, and death is final. */
  lemma {:induction false} NoResetMonotone(w: World, ticks: seq<Tick>, m: Maths)
    requires Inv(w) && Forward(ticks) && !w.input.restart
    ensures Run(w, ticks, m).spawner.freq >= w.spawner.freq
    ensures w.dead ==> Run(w, ticks, m).dead
    decreases |ticks|
  {
    if ticks != [] {
      var t := ticks[0];
      var w1 := Frame(w, t.dt, t.byte, m);
      if !w.dead {
        Spawning.StepEffect(w.spawner, w.zombies, w.score, t.dt, t.byte);
        assert w1.spawner.freq >= w.spawner.freq;
      }
      NoResetMonotone(w1, ticks[1..], m);
    }
  }

  /** The game object, as the host loop owns it. */
  class MainState {
    var player: Players.PlayerState
    var input: InputState
    var zombies: seq<Zombie>
    var bullets: seq<Bullet>
    var spawner: Spawning.SpawnerState
    var score: int
    var dead: bool

    ghost predicate Valid()
      reads this, spawner
    {
      spawner.Valid()
    }

    function Model(): World
      reads this, player, input, spawner
    {
      World(player.Model(), input.Snapshot(), zombies, bullets, spawner.Model(), score, dead)
    }

    constructor ()
      ensures Valid() && Model() == Fresh
      ensures fresh(player) && fresh(input) && fresh(spawner)
    {
      player := new Players.PlayerState();
      input := new InputState();
      zombies := [];
      bullets := [];
      spawner := new Spawning.SpawnerState();
      score := 0;
      dead := false;
    }

    method Reset()
      modifies this
      ensures Valid() && Model() == AfterReset(old(Model()))
      ensures input == old(input) && fresh(player) && fresh(spawner)
    {
      player := new Players.PlayerState();
      zombies := [];
      bullets := [];
      spawner := new Spawning.SpawnerState();
      score := 0;
      dead := false;
    }

    /** `EventHandler::update` */
    method Update(dt: real, r: Spawning.uint8, m: Maths)
      requires Valid() && dt >= 0.0
      modifies this, player, spawner
      ensures Valid()
      ensures Model() == Frame(old(Model()), dt, r, m)
    {
      if !dead {
        ghost var w := Model();
        ghost var pl := Players.Step(w.player, w.input, w.bullets, w.zombies, w.dead, dt, m);
        ghost var sp := Spawning.Step(w.spawner, w.zombies, w.score, dt, r);
        bullets, dead := player.Update(input, bullets, zombies, dead, dt, m);
        assert player.Model() == pl.0 && bullets == pl.1 && dead == pl.2;
        zombies, score := spawner.Update(dt, zombies, score, r);
        assert spawner.Model() == sp.0 && zombies == sp.1 && score == sp.2;
        bullets, zombies := UpdateBullets(bullets, zombies, dt, m);
        zombies := UpdateZombies(zombies, player.pos, dt, m);
        assert Model() == Advanced(w, dt, r, m);
        // retention
        zombies := Filter(zombies, LiveZombie);
        bullets := Filter(bullets, LiveBullet);
      } else {
        if input.restart {
          Reset();
        }
      }
    }
  }
}
