/** The input snapshot (`InputState`): which movement keys, the fire button
    and the restart key are held, and where the mouse is. Device events
    overwrite single flags; the simulation only reads the snapshot. */
module Input {
  import opened Geometry

  /** The keyboard keys the game distinguishes; every other key code is `OtherKey`. */
  datatype Key = A | D | W | S | Space | OtherKey(code: nat)

  datatype MouseButton = LeftButton | RightButton | MiddleButton | OtherButton(code: nat)

  /** Names for the six boolean fields of the snapshot. */
  datatype Flag = Left | Right | Up | Down | Shoot | Restart

  datatype Option<T> = None | Some(value: T)

  /** The value of an `InputState`. */
  datatype Input = Input(
    left: bool, right: bool, up: bool, down: bool,
    shoot: bool, restart: bool,
    mousePos: Vec2)

  function Get(s: Input, f: Flag): bool
  {
    match f
    case Left => s.left
    case Right => s.right
    case Up => s.up
    case Down => s.down
    case Shoot => s.shoot
    case Restart => s.restart
  }

  /** `InputState::new()`: nothing held, mouse position at the origin. */
  const Released: Input := Input(false, false, false, false, false, false, Origin)

  /** The flag a key controls: A left, D right, W up, S down, Space restart. */
  function KeyFlag(key: Key): Option<Flag>
  {
    match key
    case A => Some(Left)
    case D => Some(Right)
    case W => Some(Up)
    case S => Some(Down)
    case Space => Some(Restart)
    case OtherKey(_) => None
  }

  /** `key_down_event`: sets exactly the flag the key controls. */
  function KeyDown(s: Input, key: Key): (r: Input)
    ensures forall f :: Get(r, f) == (KeyFlag(key) == Some(f) || Get(s, f))
    ensures r.mousePos == s.mousePos
    ensures KeyFlag(key) == None ==> r == s
  {
    match key
    case A => s.(left := true)
    case D => s.(right := true)
    case W => s.(up := true)
    case S => s.(down := true)
    case Space => s.(restart := true)
    case OtherKey(_) => s
  }

  /** `key_up_event`: clears exactly the flag the key controls. */
  function KeyUp(s: Input, key: Key): (r: Input)
    ensures forall f :: Get(r, f) == (KeyFlag(key) != Some(f) && Get(s, f))
    ensures r.mousePos == s.mousePos
    ensures KeyFlag(key) == None ==> r == s
  {
    match key
    case A => s.(left := false)
    case D => s.(right := false)
    case W => s.(up := false)
    case S => s.(down := false)
    case Space => s.(restart := false)
    case OtherKey(_) => s
  }

  /** `mouse_button_down_event`: the left button sets `shoot` and nothing else. */
  function ButtonDown(s: Input, button: MouseButton): (r: Input)
    ensures forall f :: Get(r, f) == ((f == Shoot && button == LeftButton) || Get(s, f))
    ensures r.mousePos == s.mousePos
  {
    match button
    case LeftButton => s.(shoot := true)
    case _ => s
  }

  /** `mouse_button_up_event`: the left button clears `shoot` and nothing else. */
  function ButtonUp(s: Input, button: MouseButton): (r: Input)
    ensures forall f :: Get(r, f) == (!(f == Shoot && button == LeftButton) && Get(s, f))
    ensures r.mousePos == s.mousePos
  {
    match button
    case LeftButton => s.(shoot := false)
    case _ => s
  }

  /** Releasing a key undoes pressing it when its flag was not already held,
      and the last of a press and a release decides the flag. */
  lemma KeyRoundTrip(s: Input, key: Key)
    ensures KeyFlag(key).Some? && !Get(s, KeyFlag(key).value) ==> KeyUp(KeyDown(s, key), key) == s
    ensures KeyUp(KeyDown(s, key), key) == KeyUp(s, key)
    ensures KeyDown(KeyUp(s, key), key) == KeyDown(s, key)
  {
  }

  /** The same for the fire button. */
  lemma ButtonRoundTrip(s: Input, button: MouseButton)
    ensures !s.shoot ==> ButtonUp(ButtonDown(s, button), button) == s
    ensures ButtonUp(ButtonDown(s, button), button) == ButtonUp(s, button)
    ensures ButtonDown(ButtonUp(s, button), button) == ButtonDown(s, button)
  {
  }

  /** `b as i32` */
  function Bit(b: bool): int
  {
    if b then 1 else 0
  }

  /** The horizontal component of `move_dir`: `right - left`. */
  function AxisX(s: Input): (x: int)
    ensures -1 <= x <= 1
    ensures x == 0 <==> s.left == s.right
    ensures x == 1 <==> s.right && !s.left
  {
    Bit(s.right) - Bit(s.left)
  }

  /** The vertical component of `move_dir`: `down - up` (screen y grows downwards). */
  function AxisY(s: Input): (y: int)
    ensures -1 <= y <= 1
    ensures y == 0 <==> s.up == s.down
    ensures y == 1 <==> s.down && !s.up
  {
    Bit(s.down) - Bit(s.up)
  }

  /** The squared norm of a vector whose components lie in {-1, 0, 1}
      exceeds 1 exactly when neither component is zero. */
  lemma UnitAxesNorm(x: int, y: int)
    requires -1 <= x <= 1 && -1 <= y <= 1
    ensures Vec2(x as real, y as real).NormSq() > 1.0 <==> x != 0 && y != 0
  {
    assert x == -1 || x == 0 || x == 1;
    assert y == -1 || y == 0 || y == 1;
  }

  /** `move_dir`: the axis vector, rescaled by `normalize` when its norm
      exceeds 1, that is, by the lemma above, when both axes are nonzero. */
  function MoveDir(s: Input, m: Maths): (r: Vec2)
    ensures AxisX(s) != 0 && AxisY(s) != 0 ==>
              r == m.normalize(Vec2(AxisX(s) as real, AxisY(s) as real))
    ensures !(AxisX(s) != 0 && AxisY(s) != 0) ==>
              r == Vec2(AxisX(s) as real, AxisY(s) as real)
    // no amplification: off the diagonals the result is a unit vector or zero
    ensures !(AxisX(s) != 0 && AxisY(s) != 0) ==>
              (r.x == 0.0 || r.y == 0.0) && -1.0 <= r.x <= 1.0 && -1.0 <= r.y <= 1.0
    ensures s.left == s.right && s.up == s.down ==> r == Origin
  {
    var md := Vec2(AxisX(s) as real, AxisY(s) as real);
    if AxisX(s) != 0 && AxisY(s) != 0 then m.normalize(md) else md
  }

  /** The mutable input record the device-event callbacks write to. */
  class InputState {
    var left: bool
    var right: bool
    var up: bool
    var down: bool
    var shoot: bool
    var restart: bool
    var mousePos: Vec2

    function Snapshot(): Input
      reads this
    {
      Input(left, right, up, down, shoot, restart, mousePos)
    }

    constructor ()
      ensures Snapshot() == Released
    {
      left, right, up, down := false, false, false, false;
      shoot, restart := false, false;
      mousePos := Vec2(0.0, 0.0);
    }

    method MouseMotionEvent(x: real, y: real)
      modifies this
      ensures Snapshot() == old(Snapshot()).(mousePos := Vec2(x, y))
    {
      mousePos := Vec2(x, y);
    }

    method KeyDownEvent(key: Key)
      modifies this
      ensures Snapshot() == KeyDown(old(Snapshot()), key)
    {
      match key {
        case A => left := true;
        case D => right := true;
        case W => up := true;
        case S => down := true;
        case Space => restart := true;
        case OtherKey(_) =>
      }
    }

    method KeyUpEvent(key: Key)
      modifies this
      ensures Snapshot() == KeyUp(old(Snapshot()), key)
    {
      match key {
        case A => left := false;
        case D => right := false;
        case W => up := false;
        case S => down := false;
        case Space => restart := false;
        case OtherKey(_) =>
      }
    }

    method MouseButtonDownEvent(button: MouseButton)
      modifies this
      ensures Snapshot() == ButtonDown(old(Snapshot()), button)
    {
      match button {
        case LeftButton => shoot := true;
        case _ =>
      }
    }

    method MouseButtonUpEvent(button: MouseButton)
      modifies this
      ensures Snapshot() == ButtonUp(old(Snapshot()), button)
    {
      match button {
        case LeftButton => shoot := false;
        case _ =>
      }
    }
  }
}
