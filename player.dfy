/** Vocabulary shared by the four player controllers: the tuning constants, the
    velocity vector, the readings each physics tick takes from the input map and
    the floor test, the five behavioural phases and what entering each phase does
    to the player. */
module Player {

  datatype Option<T> = None | Some(value: T)

  /** Horizontal speed, in pixels per second, at a full axis deflection. */
  const Speed: real := 300.0
  /** Vertical velocity given by a jump (Godot's y axis points down). */
  const JumpVelocity: real := -650.0
  /** Downward impulse of a dive: three quarters of the jump, opposite sign. */
  const DiveVelocity: real := -JumpVelocity * 0.75

  datatype Vec = Vec(x: real, y: real) {
    function Plus(d: Vec): Vec { Vec(x + d.x, y + d.y) }
  }

  const Zero: Vec := Vec(0.0, 0.0)

  /** What one physics tick reads from the engine: the edge and level signals
      of the "jump" and "duck" actions, the floor test, the horizontal axis
      (move_left/move_right) and the gravity increment GetGravity() * delta. */
  datatype Inputs = Inputs(
    jumpJustPressed: bool,
    jumpPressed: bool,
    duckJustPressed: bool,
    duckPressed: bool,
    duckJustReleased: bool,
    onFloor: bool,
    direction: real,
    gravity: Vec)

  /** Mathf.IsZeroApprox, without its tolerance. */
  predicate IsZeroApprox(d: real) { d == 0.0 }

  datatype Phase = Standing | Jumping | Ducking | Diving | Moving

  /** The player as its controllers change it: its velocity, whether its sprite
      is mirrored, and the name of the animation played last ("" before any). */
  datatype Actor = Actor(velocity: Vec, flipH: bool, animation: string)

  /** Gravity is integrated only while airborne. */
  function Fall(a: Actor, inp: Inputs): Actor
  {
    if inp.onFloor then a else a.(velocity := a.velocity.Plus(inp.gravity))
  }

  /** Horizontal control: X follows the axis and the sprite faces left when the
      axis is negative; Y is kept. */
  function Steer(a: Actor, direction: real): Actor
  {
    a.(velocity := a.velocity.(x := direction * Speed), flipH := direction < 0.0)
  }

  /** The dive impulse: horizontal motion stops and the dive is added to Y. */
  function DiveImpulse(v: Vec): Vec
  {
    Vec(0.0, v.y + DiveVelocity)
  }

  /** The transitions the five state tables take: from each phase, the phases
      its table can move to. */
  predicate Edge(from: Phase, to: Phase)
  {
    match from
    case Standing => to == Jumping || to == Ducking || to == Moving
    case Jumping => to == Standing || to == Diving
    case Ducking => to == Standing
    case Diving => to == Ducking || to == Standing
    case Moving => to == Jumping || to == Ducking || to == Standing
  }

  /** The Enter hook of each phase, as the state objects implement it. */
  function EnterEffect(p: Phase, a: Actor): (r: Actor)
    ensures r.flipH == a.flipH
    ensures p == Standing || p == Ducking ==> r.velocity == Zero
    ensures p == Jumping ==> r.velocity.x == a.velocity.x && r.velocity.y == JumpVelocity
    ensures p == Diving ==> r.velocity.x == 0.0 && r.velocity.y == a.velocity.y + DiveVelocity
    ensures p == Moving ==> r.velocity == a.velocity
  {
    match p
    case Standing => a.(velocity := Zero, animation := "stand")
    case Jumping => a.(velocity := a.velocity.(y := JumpVelocity), animation := "jump")
    case Ducking => a.(velocity := Zero, animation := "duck")
    case Diving => a.(velocity := DiveImpulse(a.velocity), animation := "dive")
    case Moving => a.(animation := "move")
  }
}
