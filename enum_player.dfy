/** The enum controller: one switch over the player's State field per tick,
    updating a local copy of the velocity that is written back at the end. */
module EnumPlayer {
  import opened Player
  import FinalSpec

  datatype Status = Status(state: Phase, actor: Actor)

  /** One tick of _PhysicsProcess. In Standing the jump test and the
      duck-or-move test are two separate ifs, so both can fire on one tick. */
  function Step(v: Status, inp: Inputs): (r: Status)
    ensures r.state == v.state || Edge(v.state, r.state)
    ensures r.state == Standing && v.state != Standing ==> r.actor.velocity == Zero
  {
    var a := Fall(v.actor, inp);
    var dir := inp.direction;
    match v.state
    case Standing =>
      var s1 := if inp.jumpJustPressed then Jumping else Standing;
      var a1 := if inp.jumpJustPressed then a.(velocity := a.velocity.(y := JumpVelocity)) else a;
      if inp.duckJustPressed then Status(Ducking, a1.(animation := "duck"))
      else if !IsZeroApprox(dir) then Status(Moving, Steer(a1, dir).(animation := "move"))
      else Status(s1, a1)
    case Jumping =>
      if inp.onFloor then Status(Standing, a.(velocity := Zero, animation := "stand"))
      else if inp.duckJustPressed then Status(Diving, a.(velocity := DiveImpulse(a.velocity), animation := "dive"))
      else Status(Jumping, Steer(a, dir))
    case Ducking =>
      var a1 := a.(velocity := Zero);
      if inp.duckJustReleased then Status(Standing, a1.(animation := "stand"))
      else Status(Ducking, a1)
    case Diving =>
      if inp.onFloor then
        if inp.duckPressed then Status(Ducking, a.(animation := "duck"))
        else Status(Standing, a.(velocity := Zero, animation := "stand"))
      else Status(Diving, a)
    case Moving =>
      if inp.jumpJustPressed then Status(Jumping, a.(velocity := a.velocity.(y := JumpVelocity)))
      else if inp.duckPressed then Status(Ducking, a.(animation := "duck"))
      else if IsZeroApprox(dir) then Status(Standing, a.(velocity := Zero, animation := "stand"))
      else Status(Moving, Steer(a, dir))
  }

  function Run(v: Status, ins: seq<Inputs>): Status
    decreases |ins|
  {
    if ins == [] then v else Run(Step(v, ins[0]), ins[1..])
  }

  class PlayerEnum {
    var state: Phase
    var velocity: Vec
    var flipH: bool
    var animation: string

    constructor ()
      ensures Snap() == Status(Standing, Actor(Zero, false, ""))
    {
      state := Standing;
      velocity, flipH, animation := Zero, false, "";
    }

    function Snap(): Status
      reads this
    {
      Status(state, Actor(velocity, flipH, animation))
    }

    method PhysicsProcess(inp: Inputs)
      modifies this
      ensures Snap() == Step(old(Snap()), inp)
    {
      var velocity := this.velocity;
      if !inp.onFloor {
        velocity := velocity.Plus(inp.gravity);
      }
      var direction := inp.direction;
      match state {
      case Standing =>
        if inp.jumpJustPressed {
          velocity := velocity.(y := JumpVelocity);
          state := Jumping;
        }
        if inp.duckJustPressed {
          animation := "duck";
          state := Ducking;
        } else if !IsZeroApprox(direction) {
          animation := "move";
          velocity := velocity.(x := direction * Speed);
          flipH := direction < 0.0;
          state := Moving;
        }
      case Jumping =>
        if inp.onFloor {
          animation := "stand";
          velocity := Zero;
          state := Standing;
        } else if inp.duckJustPressed {
          animation := "dive";
          velocity := velocity.(x := 0.0);
          velocity := velocity.(y := velocity.y + DiveVelocity);
          state := Diving;
        } else {
          velocity := velocity.(x := direction * Speed);
          flipH := direction < 0.0;
        }
      case Ducking =>
        velocity := Zero;
        if inp.duckJustReleased {
          animation := "stand";
          state := Standing;
        }
      case Diving =>
        if inp.onFloor {
          if inp.duckPressed {
            animation := "duck";
            state := Ducking;
          } else {
            animation := "stand";
            velocity := Zero;
            state := Standing;
          }
        }
      case Moving =>
        if inp.jumpJustPressed {
          velocity := velocity.(y := JumpVelocity);
          state := Jumping;
        } else if inp.duckPressed {
          animation := "duck";
          state := Ducking;
        } else if IsZeroApprox(direction) {
          animation := "stand";
          state := Standing;
          velocity := Zero;
        } else {
          velocity := velocity.(x := direction * Speed);
          flipH := direction < 0.0;
        }
      }
      this.velocity := velocity;
    }
  }

  // ----- properties of the step ----------------------------------------------

  /** A jump from Standing sets Y, but a duck press or a deflected axis on the
      same tick overrides the new state while the jump velocity stays. */
  lemma StandingJumpIsOverridden(a: Actor, inp: Inputs)
    requires inp.jumpJustPressed
    ensures var r := Step(Status(Standing, a), inp);
      r.actor.velocity.y == JumpVelocity &&
      r.state == (if inp.duckJustPressed then Ducking
                  else if !IsZeroApprox(inp.direction) then Moving
                  else Jumping)
  {
  }

  /** Standing with nothing pressed and the axis at rest only falls. */
  lemma StandingAtRest(a: Actor, inp: Inputs)
    requires !inp.jumpJustPressed && !inp.duckJustPressed && IsZeroApprox(inp.direction)
    ensures Step(Status(Standing, a), inp) == Status(Standing, Fall(a, inp))
  {
  }

  /** Diving lands in Ducking without stopping when duck is held, and in
      Standing with the velocity zeroed otherwise. */
  lemma DivingLanding(a: Actor, inp: Inputs)
    requires inp.onFloor
    ensures var r := Step(Status(Diving, a), inp);
      if inp.duckPressed then r == Status(Ducking, a.(animation := "duck"))
      else r == Status(Standing, a.(velocity := Zero, animation := "stand"))
  {
  }

  /** Moving tests jump (pressed this tick), then duck (held), then a resting
      axis; a jump sets Y without playing an animation. */
  lemma MovingPriority(a: Actor, inp: Inputs)
    ensures var r := Step(Status(Moving, a), inp);
      var f := Fall(a, inp);
      if inp.jumpJustPressed then r == Status(Jumping, f.(velocity := f.velocity.(y := JumpVelocity)))
      else if inp.duckPressed then r == Status(Ducking, f.(animation := "duck"))
      else if IsZeroApprox(inp.direction) then r == Status(Standing, f.(velocity := Zero, animation := "stand"))
      else r == Status(Moving, Steer(f, inp.direction))
  {
  }

  /** While ducking the velocity is zeroed on every tick, and only a release
      leaves the state. */
  lemma {:induction false} DuckingHoldsStill(v: Status, ins: seq<Inputs>)
    requires v.state == Ducking && |ins| > 0
    requires forall i | 0 <= i < |ins| :: !ins[i].duckJustReleased
    ensures Run(v, ins).state == Ducking && Run(v, ins).actor.velocity == Zero
    ensures Run(v, ins).actor.animation == v.actor.animation && Run(v, ins).actor.flipH == v.actor.flipH
    decreases |ins|
  {
    var v1 := Step(v, ins[0]);
    if |ins| == 1 {
      assert Run(v1, ins[1..]) == v1;
    } else {
      DuckingHoldsStill(v1, ins[1..]);
    }
  }

  /** Airborne, Diving keeps diving and only gathers gravity. */
  lemma {:induction false} DivingFallsInTheAir(v: Status, ins: seq<Inputs>)
    requires v.state == Diving
    requires forall i | 0 <= i < |ins| :: !ins[i].onFloor
    ensures Run(v, ins).state == Diving
    ensures Run(v, ins).actor.animation == v.actor.animation && Run(v, ins).actor.flipH == v.actor.flipH
    decreases |ins|
  {
    if ins != [] {
      DivingFallsInTheAir(Step(v, ins[0]), ins[1..]);
    }
  }

  /** In Jumping the enum switch does exactly what the final controller's
      JumpingState does on a tick after PlayerFinal applied gravity. */
  lemma JumpingAgreesWithFinal(m: FinalSpec.Machine, inp: Inputs)
    requires m.registry == FinalSpec.AllPhases && m.current == Some(Jumping)
    ensures var r := FinalSpec.Tick(m.(actor := Fall(m.actor, inp)), inp);
      Step(Status(Jumping, m.actor), inp) == Status(r.current.value, r.actor)
  {
  }

  /** Landing from a dive with duck held keeps the dive's velocity here, where
      the final controller's Ducking Enter zeroes it. */
  lemma DivingLandingDiffersFromFinal(m: FinalSpec.Machine, inp: Inputs)
    requires m.registry == FinalSpec.AllPhases && m.current == Some(Diving)
    requires inp.onFloor && inp.duckPressed && m.actor.velocity != Zero
    ensures var r := FinalSpec.Tick(m, inp);
      r.current == Some(Ducking) && r.actor.velocity == Zero &&
      Step(Status(Diving, m.actor), inp) == Status(Ducking, m.actor.(animation := "duck"))
  {
  }
}
