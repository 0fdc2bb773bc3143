# zombie-squares-rs: the game logic, modelled and verified in Dafny

The game is a top-down shooter. The player is a square that moves with
W/A/S/D, aims at the mouse and fires bullets with the left button.
Zombies are squares that appear at the corners of an 800 x 600 field at an
increasing rate and chase the player. A bullet that comes within 16 units of
zombies takes one health point from each of them. A zombie that comes within
16 units of the player ends the game, and Space restarts it. The score counts
spawned zombies, not kills.

This project models the discrete, per-frame logic of `src/main.rs`: the
input snapshot and its event handlers, the player, zombie, bullet and spawner
updates, the frame step with its fixed update order and end-of-frame
retention, and `reset`. `MainState` and each struct it holds in a single
field (`InputState`, `PlayerState`, `SpawnerState`) become Dafny classes.
Each class has a value view (`Snapshot()`/`Model()`), and each of its methods
is proved against a pure function of the old view. `ZombieState` and
`BulletState` are also updated through `&mut self`, but they live by value in
`Vec`s, so they are datatypes held in sequences, and their in-place updates
are functions returning the new value. The properties
the game promises are lemmas about those functions.

Modules, one per file:

- `Geometry` (geometry.dfy): vectors, the playfield, the contact test, and
  the uninterpreted maths.
- `Input` (input.dfy): `InputState`, its five event handlers (mouse motion, key down and up,
  button down and up) and `move_dir`.
- `Zombies` (zombie.dfy): `ZombieState`.
- `Bullets` (bullet.dfy): `BulletState`, including its damage loop.
- `Players` (player.dfy): `PlayerState`.
- `Spawning` (spawner.dfy): `SpawnerState` and `spawn_position`.
- `Retention` (retain.dfy): `Vec::retain` as an order-keeping filter.
- `Game` (game.dfy): `MainState` with its frame step and reset, and
  multi-frame runs.

How numbers are modelled:

- Coordinates, angles, speeds and timers are `real`s. Health and the score
  are unbounded `int`s.
- The frame's elapsed time `dt` is a parameter, with `dt >= 0`.
- The random spawn byte is a `uint8` parameter.
- `normalize`, `cos`, `sin` and `point_direction` are the fields of a `Maths`
  value, so they are arbitrary total functions.
- Contact, `(a - b).norm() < 16`, is the squared distance `< 256`. A norm is
  never negative, so the two are the same test.
- `move_dir` tests `md.norm() > 1`. The model tests "both axes nonzero"
  instead. For axis values in {-1, 0, 1} the two agree, and
  `Input.UnitAxesNorm` proves that for the squared norm.

Three consequences of the code that are easy to miss:

- **A bullet damages every zombie in range.** The loop in `BulletState::update`
  has no `break` (src/main.rs:225-230), so an unspent bullet damages every
  zombie within 16 units of its new position in the frame it hits.
  `Bullets.Update` states this.
- **A spent bullet is removed in the same frame.** `hit` is set during the
  bullet pass (src/main.rs:345-347), and retention runs at the end of the same
  frame (src/main.rs:352-353), so a bullet that hits is never seen in a later
  frame (`Game.FrameAlive`).
- **Dying zombies still move.** A zombie whose health reaches 0 during the
  bullet pass still takes its movement step in the same frame
  (src/main.rs:348-350), and is dropped only by the retention after it.

## Model

| member | source | states |
|---|---|---|
| `Geometry.DistSq` | src/main.rs:153 | the squared distance used by every contact test is never negative, so `< 256` is the same test as `norm() < 16` |
| `Geometry.Touching` | src/main.rs:153 | definition: the contact test `(a - b).norm() < 16` as squared distance `< 256` (the same test at src/main.rs:226); `Geometry.DistSq` and `Geometry.TouchingSelf` state its properties, and `Players.StepEffect` and `Bullets.Update` state contact in its terms |
| `Geometry.InField` | src/main.rs:240-242 | definition: the closed field [0, 800] x [0, 600], the bounds half of `BulletState::is_dead`; `Bullets.IsDead` and `Game.RetainExact` state its use |
| `Geometry.TouchingSelf` | src/main.rs:226 | a point is in contact with itself (distance 0 < 16) |
| `Input.KeyFlag` | src/main.rs:83-88 | definition: the flag each key controls in both `match` blocks (A left, D right, W up, S down, Space restart; any other key none); `Input.KeyDown` and `Input.KeyUp` state their effect in its terms |
| `Input.KeyDown` | src/main.rs:82-91 | key down sets exactly the flag the key controls (A left, D right, W up, S down, Space restart), keeps every other flag and the mouse position, and any other key changes nothing |
| `Input.KeyUp` | src/main.rs:92-101 | key up clears exactly the flag the key controls, keeps every other flag and the mouse position, and any other key changes nothing |
| `Input.ButtonDown` | src/main.rs:102-107 | the left button sets `shoot` and nothing else; other buttons change no flag |
| `Input.ButtonUp` | src/main.rs:108-113 | the left button clears `shoot` and nothing else; other buttons change no flag |
| `Input.KeyRoundTrip` | src/main.rs:82-101 | releasing a key undoes pressing it when its flag was clear; press-then-release equals release, release-then-press equals press |
| `Input.ButtonRoundTrip` | src/main.rs:102-113 | releasing a button undoes pressing it when `shoot` was clear; press-then-release equals release, release-then-press equals press |
| `Input.AxisX` | src/main.rs:70 | `right - left` lies in {-1, 0, 1}, is 0 iff both or neither of A/D are held, and is 1 iff only D is |
| `Input.AxisY` | src/main.rs:71 | `down - up` lies in {-1, 0, 1}, is 0 iff both or neither of W/S are held, and is 1 iff only S is |
| `Input.UnitAxesNorm` | src/main.rs:72-73 | for axis values in {-1, 0, 1}, `norm > 1` holds exactly when both axes are nonzero |
| `Input.MoveDir` | src/main.rs:69-78 | `move_dir` is normalised only when both axes are nonzero and is otherwise the raw axis vector, which then has a zero component and components in [-1, 1]; it is the zero vector when no direction (or each opposing pair) is held |
| `Input.InputState.constructor` | src/main.rs:58-68 | a new input state holds nothing, with the mouse position at the origin |
| `Input.InputState.MouseMotionEvent` | src/main.rs:79-81 | mouse motion overwrites the mouse position and nothing else |
| `Input.InputState.KeyDownEvent` | src/main.rs:82-91 | the handler's new state is `KeyDown` of the old one |
| `Input.InputState.KeyUpEvent` | src/main.rs:92-101 | the handler's new state is `KeyUp` of the old one |
| `Input.InputState.MouseButtonDownEvent` | src/main.rs:102-107 | the handler's new state is `ButtonDown` of the old one |
| `Input.InputState.MouseButtonUpEvent` | src/main.rs:108-113 | the handler's new state is `ButtonUp` of the old one |
| `Zombies.New` | src/main.rs:179-186 | definition: a zombie at the given position with angle 0, hp 2 and speed 200; `Zombies.TwoHitsKill` and `Spawning.StepEffect` state its use |
| `Zombies.IsDead` | src/main.rs:203-205 | definition: `hp <= 0`; `Game.RetainExact` states that retention keeps exactly the zombies for which it fails |
| `Zombies.AnyTouching` | src/main.rs:152-156 | definition: some zombie of the sequence is in contact with a point, the outcome of the player's contact loop; `Players.StepEffect` and `Game.FrameAlive` state the dead flag in its terms |
| `Zombies.TakeDamage` | src/main.rs:195-197 | one health point less, every other field unchanged, and a dead zombie stays dead |
| `Zombies.TwoHitsKill` | src/main.rs:179-205 | a new zombie (hp 2) is alive after one hit and dead (`hp <= 0`) after two |
| `Zombies.Step` | src/main.rs:187-194 | the zombie update leaves health and deadness alone and raises the speed by exactly `10 * dt`, so never lowers it over forward time |
| `Bullets.New` | src/main.rs:215-217 | definition: a bullet at the given position and angle with `hit` false; `Players.StepEffect` states that firing appends one |
| `Bullets.Advance` | src/main.rs:222-223 | definition: the flight step `pos + (cos angle, sin angle) * 800 * dt`; `Bullets.Update` states that a live bullet moves to it |
| `Bullets.DamageInRange` | src/main.rs:225-230 | definition: every zombie within 16 units of a point takes one damage, the others none; `Bullets.DamageAt` and `Bullets.Update` state its effect |
| `Bullets.Strike` | src/main.rs:224-230 | definition: a live bullet arriving at a point is spent iff some zombie is in range and damages all in range; `Bullets.OverlapHits` states the overlap case |
| `Bullets.IsDead` | src/main.rs:240-243 | a bullet is dead iff it is spent or outside the closed field [0, 800] x [0, 600]; boundary points are alive |
| `Bullets.Step` | src/main.rs:219-232 | a bullet update keeps the zombie count and every zombie's position, angle and speed, changes each health by 0 or -1, keeps the bullet's angle and never clears `hit` |
| `Bullets.DamageAt` | src/main.rs:225-229 | a zombie in range of the bullet loses exactly one point, and then the bullet is spent |
| `Bullets.OverlapHits` | src/main.rs:225-229 | a live bullet landing exactly on a zombie is spent and takes one point from that zombie |
| `Bullets.OverlapStep` | src/main.rs:219-232 | a live bullet whose flight ends exactly on a zombie is spent by its update and takes one point from that zombie |
| `Bullets.TwoOverlapsKill` | src/main.rs:219-232 | a fresh zombie hit by a bullet landing exactly on it becomes the same zombie with 1 health point, still alive, and a second bullet landing on it, whatever happened to the other zombies in between, leaves it dead |
| `Bullets.Update` | src/main.rs:219-232 | a spent bullet changes neither itself nor any zombie; a live one moves by (cos, sin) * 800 * dt, becomes spent iff some zombie is in range of its new position, and takes one point from every zombie in range and none from any other, keeping the zombies' order and other fields |
| `Players.Step` | src/main.rs:131-158 | definition of the player update as a function of the old player, the input, the bullets, the zombies and the dead flag; `Players.StepEffect` states its properties |
| `Players.StepEffect` | src/main.rs:131-158 | `dead` is never cleared and becomes true iff it was true or a zombie is in contact; a bullet (player position and angle, not spent) is appended and the cooldown set to 0.2 exactly when the cooldown has run out and fire is held, otherwise the bullets are unchanged; a running cooldown counts down by `dt` and a run-out one stays unchanged while fire is not held; the move is `move_dir * 300 * dt`; the player faces `point_direction(mouse position, new position)` |
| `Players.StillWithoutDirection` | src/main.rs:140-142 | with no direction held, or each opposing pair held together, the player does not move |
| `Players.PlayerState.constructor` | src/main.rs:124-130 | a new player stands at (360, 360) with angle 0 and no cooldown |
| `Players.PlayerState.Update` | src/main.rs:131-158 | the player update, contact loop included, yields the new player, bullets and dead flag of `Players.Step` |
| `Players.PlayerState.Shoot` | src/main.rs:164-168 | shooting appends one fresh bullet at the player's position and angle and sets the cooldown to 0.2, changing nothing else |
| `Spawning.SpawnPosition` | src/main.rs:270-278 | every byte maps to one of the four corners of the field |
| `Spawning.HitsBelow` | src/main.rs:272-277 | among the bytes below `n`, a corner is chosen by exactly those in its quarter of the byte range |
| `Spawning.CornerShare` | src/main.rs:270-278 | each corner is chosen by exactly one contiguous quarter of the bytes, 64 of the 256 |
| `Spawning.Step` | src/main.rs:287-296 | definition of the spawner update as a function of the old spawner, the zombies, the score and the random byte; `Spawning.StepEffect` states its properties |
| `Spawning.StepEffect` | src/main.rs:287-296 | with the cooldown run out, exactly one zombie (hp 2, speed 200, at a corner) is appended, the cooldown becomes `1/freq` and the score rises by 1; otherwise zombies and score are unchanged and the cooldown drops by `dt`; in both cases `freq` rises by `0.1 * dt` and so never falls |
| `Spawning.SpawnerState.constructor` | src/main.rs:263-268 | a new spawner has cooldown 0 and frequency 1 |
| `Spawning.SpawnerState.Spawn` | src/main.rs:280-285 | spawning appends a new zombie at the chosen corner, sets the cooldown to `1/freq`, adds 1 to the score and keeps `freq >= 1` |
| `Spawning.SpawnerState.Update` | src/main.rs:287-296 | the spawner update yields the spawner, zombies and score of `Spawning.Step` and keeps `freq >= 1` |
| `Retention.Filter` | src/main.rs:352-353 | retaining never lengthens a sequence |
| `Retention.FilterMember` | src/main.rs:352 | an element remains after retention iff it was there and the predicate accepts it |
| `Retention.FilterSnoc` | src/main.rs:352-353 | retaining a sequence with one more element at the end appends that element iff it is accepted |
| `Retention.FilterAppend` | src/main.rs:353 | retaining a concatenation is concatenating the retained parts |
| `Retention.FilterSingle` | src/main.rs:352 | a one-element sequence keeps its element iff the predicate accepts it |
| `Retention.FilterPlace` | src/main.rs:353 | an accepted element sits between the retained prefix before it and the retained suffix after it |
| `Retention.FilterOrder` | src/main.rs:352 | two accepted elements keep their relative order in the result |
| `Retention.FilterAllKept` | src/main.rs:353 | retaining a sequence whose elements are all accepted changes nothing |
| `Retention.FilterIdempotent` | src/main.rs:352 | retaining twice is retaining once |
| `Game.AfterReset` | src/main.rs:37-44 | definition: the initial player and spawner, no zombies or bullets, score 0, not dead, input kept; `Game.ResetEffect` states its properties |
| `Game.ResetEffect` | src/main.rs:37-44 | `reset` is idempotent and gives the new state of `MainState::new` except that the input is kept |
| `Game.BulletsPass` | src/main.rs:345-347 | the bullet pass keeps the number of bullets and of zombies |
| `Game.BulletsPassEffect` | src/main.rs:345-347 | over the whole bullet pass each zombie keeps position, angle and speed and loses at most one point per bullet; spent bullets are unchanged; if every bullet is spent, the zombies are untouched |
| `Game.UpdateBullets` | src/main.rs:345-347 | the `iter_mut` loop updates each bullet in order against the zombies as the bullets before it left them, which is `BulletsPass` |
| `Game.ZombiesPass` | src/main.rs:348-350 | the zombie pass keeps the number of zombies and each one's health and deadness |
| `Game.UpdateZombies` | src/main.rs:348-350 | the `iter_mut` loop steps every zombie towards the player's new position, which is `ZombiesPass` |
| `Game.Advanced` | src/main.rs:341-350 | the updates of an alive frame keep the spawner invariant `freq >= 1` and the input |
| `Game.LiveZombie` | src/main.rs:352 | definition: the closure `!z.is_dead()` passed to the zombie `retain`; `Game.RetainExact` states which zombies it keeps |
| `Game.LiveBullet` | src/main.rs:353 | definition: the closure `!b.is_dead()` passed to the bullet `retain`; `Game.RetainExact` states which bullets it keeps |
| `Game.Retain` | src/main.rs:351-353 | definition: both `retain` calls, with the `is_dead` predicates negated; `Game.RetainExact` and the two order lemmas state its properties |
| `Game.RetainExact` | src/main.rs:351-353 | retention keeps exactly the zombies with `hp > 0` and exactly the unspent bullets inside the field, changes nothing else, and a second retention changes nothing |
| `Game.RetainZombieOrder` | src/main.rs:352 | surviving zombies keep their relative order |
| `Game.RetainBulletOrder` | src/main.rs:353 | surviving bullets keep their relative order |
| `Game.Frame` | src/main.rs:340-359 | a frame keeps the spawner invariant `freq >= 1` and never changes the input |
| `Game.FrameWhileDead` | src/main.rs:354-358 | while dead a frame does nothing unless restart is held, and then it is `reset` |
| `Game.FrameAlive` | src/main.rs:341-353 | after an alive frame no retained zombie has `hp <= 0` and no retained bullet is spent or outside the field; `dead` is set iff a zombie present before the spawn touches the player's new position; the score rises by 1 iff the spawn cooldown had run out; the frequency rises by `0.1 * dt` |
| `Game.FrameScore` | src/main.rs:340-359 | a frame resets the score to 0 on restart, adds 1 when it spawns, and otherwise leaves it alone |
| `Game.Run` | src/main.rs:340-359 | any run of frames keeps `freq >= 1` and the input |
| `Game.ScoreCountsSpawns` | src/main.rs:284 | after any run the score is the number of spawn events since the last reset (plus the starting score, if there was no reset) |
| `Game.FrozenWhileDead` | src/main.rs:354-358 | a dead game with restart not held stays exactly as it is for any number of frames |
| `Game.NoResetMonotone` | src/main.rs:294-295 | without restart held, the spawn frequency never falls over a run and death is final |
| `Game.MainState.constructor` | src/main.rs:24-35 | a new game is the initial state, with fresh player, input and spawner objects |
| `Game.MainState.Reset` | src/main.rs:37-44 | `reset` gives fresh player and spawner objects, empty sequences, score 0 and dead false, and leaves the input object as it was |
| `Game.MainState.Update` | src/main.rs:340-359 | the frame step on the game object yields exactly the state `Frame` gives for the old state, and keeps `freq >= 1` |

## Left out

- Rendering is left out: every `draw` method, `draw_square`, `draw_score`,
  `draw_dead_message` and `graphics::present`. They only produce graphics.
- The ggez event loop, `main`, and the `EventHandler` callbacks that forward
  to `InputState` are left out. The forwarded handlers are modelled.
- `delta_time` reads the ggez timer. It becomes the parameter `dt`, with
  `dt >= 0`.
- `rand::random()` in `spawn_position` becomes the byte parameter `r`. Its
  uniformity is stated as each corner owning 64 of the 256 byte values.
- `point_direction`, `normalize`, `cos` and `sin` are uninterpreted. So is
  point_direction's division by zero when both points share an x
  coordinate. Positions after a move and all angles are therefore only
  known as these functions' results.
- Floating point is left out: `f32` rounding, infinities and NaN. Numbers
  are exact reals.
- Integer width is left out. `score` and `hp` are `i32` in the source and
  unbounded here, so an overflow of the score after 2^31 spawns is not
  modelled.
- Input.MoveDir: states the rescale condition as "both axes nonzero" rather
  than `norm() > 1`. The two are equivalent by `Input.UnitAxesNorm`. Because
  `normalize` is uninterpreted, the model does not promise that a diagonal
  move direction has length at most 1 (or exactly 1); only the non-diagonal
  cases are bounded.
- Players.PlayerState.Update: the zombie sequence is an input only and is
  never returned, so "zombies are not modified" holds by construction and has
  no clause of its own.
- Game.Run: runs hold the input constant across frames. Input events between
  frames are modelled one at a time by the `InputState` methods, not inside a
  run.
