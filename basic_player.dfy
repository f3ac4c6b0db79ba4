/** The flag controller: three booleans (_isJumping, _isDucking, _isDiving)
    set and cleared by one if/else chain per tick, over a local copy of the
    velocity that is written back at the end. */
module BasicPlayer {
  import opened Player

  datatype Flags = Flags(isJumping: bool, isDucking: bool, isDiving: bool)

  datatype Status = Status(flags: Flags, actor: Actor)

  /** One tick of _PhysicsProcess. */
  function Step(v: Status, inp: Inputs): (r: Status)
    ensures inp.jumpJustPressed && !v.flags.isDucking ==>
      r.flags == v.flags.(isJumping := true) && r.actor.velocity.y == JumpVelocity
    ensures r.flags.isDucking && !v.flags.isDucking ==> r.actor.velocity == Zero
    ensures r.flags.isDiving && !v.flags.isDiving ==>
      v.flags.isJumping && inp.duckPressed && !inp.onFloor && r.actor.velocity.x == 0.0
  {
    var f := v.flags;
    var a := Fall(v.actor, inp);
    var dir := inp.direction;
    if inp.jumpJustPressed && !f.isDucking then
      Status(f.(isJumping := true), a.(velocity := a.velocity.(y := JumpVelocity), animation := "jump"))
    else if inp.duckPressed then
      var dives := f.isJumping && !f.isDiving;
      var f1 := if dives then f.(isDiving := true) else f;
      var a1 := if dives then a.(velocity := DiveImpulse(a.velocity), animation := "dive") else a;
      if f1.isDiving then
        if inp.onFloor then
          Status(f1.(isDiving := false),
                 if inp.duckPressed then a1.(animation := "duck")
                 else a1.(velocity := Zero, animation := "stand"))
        else Status(f1, a1)
      else if !f1.isJumping then
        Status(f1.(isDucking := true), a1.(velocity := Zero, animation := "duck"))
      else Status(f1, a1)
    else if inp.duckJustReleased && f.isDucking then
      Status(f.(isDucking := false), a)
    else if inp.onFloor && IsZeroApprox(dir) && !f.isDucking then
      Status(Flags(false, false, false), a.(velocity := Zero, animation := "stand"))
    else
      var f1 := if inp.onFloor then f.(isDiving := false, isJumping := false) else f;
      var a1 := if !f1.isJumping then a.(animation := "move") else a;
      Status(f1, Steer(a1, dir))
  }

  class PlayerBasic {
    var isDiving: bool
    var isDucking: bool
    var isJumping: bool
    var velocity: Vec
    var flipH: bool
    var animation: string

    constructor ()
      ensures Snap() == Status(Flags(false, false, false), Actor(Zero, false, ""))
    {
      isDiving, isDucking, isJumping := false, false, false;
      velocity, flipH, animation := Zero, false, "";
    }

    function Snap(): Status
      reads this
    {
      Status(Flags(isJumping, isDucking, isDiving), Actor(velocity, flipH, animation))
    }

    method PhysicsProcess(inp: Inputs)
      modifies this
      ensures Snap() == Step(old(Snap()), inp)
    {
      var velocity := this.velocity;
      if !inp.onFloor {
        velocity := velocity.Plus(inp.gravity);
      }
      var direction := inp.direction;
      if inp.jumpJustPressed && !isDucking {
        velocity := velocity.(y := JumpVelocity);
        animation := "jump";
        isJumping := true;
      } else if inp.duckPressed {
        if isJumping && !isDiving {
          animation := "dive";
          velocity := velocity.(x := 0.0);
          velocity := velocity.(y := velocity.y + DiveVelocity);
          isDiving := true;
        }
        if isDiving {
          if inp.onFloor {
            isDiving := false;
            if inp.duckPressed {
              animation := "duck";
            } else {
              // Standing up with a zero velocity is written here, but duck is
              // held on this path, so the alternative cannot run.
              assert false;
            }
          }
        } else if !isJumping {
          animation := "duck";
          velocity := Zero;
          isDucking := true;
        }
      } else if inp.duckJustReleased && isDucking {
        isDucking := false;
      } else if inp.onFloor && IsZeroApprox(direction) && !isDucking {
        velocity := Zero;
        animation := "stand";
        isDiving := false;
        isDucking := false;
        isJumping := false;
      } else {
        if inp.onFloor {
          isDiving := false;
          isJumping := false;
        }
        if !isJumping {
          animation := "move";
        }
        velocity := velocity.(x := direction * Speed);
        flipH := direction < 0.0;
      }
      this.velocity := velocity;
    }
  }

  // ----- properties of the step ----------------------------------------------

  /** A dive already under way gets no second impulse in the air. */
  lemma NoSecondImpulseWhileDiving(v: Status, inp: Inputs)
    requires !(inp.jumpJustPressed && !v.flags.isDucking) && inp.duckPressed
    requires v.flags.isDiving && !inp.onFloor
    ensures Step(v, inp) == Status(v.flags, Fall(v.actor, inp))
  {
  }

  /** Inside the duck-held branch the duck action is read again and is still
      held, so landing from a dive always plays "duck" and keeps the velocity:
      the "stand, zero velocity" alternative is never taken. */
  lemma DiveLandingNeverStands(v: Status, inp: Inputs)
    requires !(inp.jumpJustPressed && !v.flags.isDucking) && inp.duckPressed
    requires v.flags.isDiving && inp.onFloor
    ensures Step(v, inp) == Status(v.flags.(isDiving := false), v.actor.(animation := "duck"))
  {
  }

  /** Duck held while not jumping stops the player and raises the duck flag,
      on the floor or in the air alike. */
  lemma DuckHeldWhileNotJumping(v: Status, inp: Inputs)
    requires !(inp.jumpJustPressed && !v.flags.isDucking) && inp.duckPressed
    requires !v.flags.isJumping && !v.flags.isDiving
    ensures Step(v, inp) == Status(v.flags.(isDucking := true), Fall(v.actor, inp).(velocity := Zero, animation := "duck"))
  {
  }

  /** Releasing duck while ducking clears that flag and changes nothing else
      (gravity aside). */
  lemma DuckReleaseOnlyClearsFlag(v: Status, inp: Inputs)
    requires !(inp.jumpJustPressed && !v.flags.isDucking) && !inp.duckPressed
    requires inp.duckJustReleased && v.flags.isDucking
    ensures Step(v, inp) == Status(v.flags.(isDucking := false), Fall(v.actor, inp))
  {
  }

  /** At rest on the floor with no duck in progress every flag is cleared and
      the player stops. */
  lemma AtRestClearsAll(v: Status, inp: Inputs)
    requires !inp.jumpJustPressed && !inp.duckPressed
    requires inp.onFloor && IsZeroApprox(inp.direction) && !v.flags.isDucking
    ensures Step(v, inp) == Status(Flags(false, false, false), v.actor.(velocity := Zero, animation := "stand"))
  {
  }

  /** In the fallthrough branch, touching the floor ends a jump or a dive and
      the axis steers. */
  lemma FallthroughSteers(v: Status, inp: Inputs)
    requires !(inp.jumpJustPressed && !v.flags.isDucking) && !inp.duckPressed
    requires !(inp.duckJustReleased && v.flags.isDucking)
    requires !(inp.onFloor && IsZeroApprox(inp.direction) && !v.flags.isDucking)
    ensures var r := Step(v, inp);
      (inp.onFloor ==> !r.flags.isJumping && !r.flags.isDiving && r.actor.animation == "move") &&
      r.flags.isDucking == v.flags.isDucking &&
      r.actor.velocity.x == inp.direction * Speed && r.actor.flipH == (inp.direction < 0.0)
  {
  }

  const Dive: Inputs := Inputs(false, true, true, true, false, false, 0.0, Zero)
  const HoldDuckOnFloor: Inputs := Inputs(false, false, false, true, false, true, 0.0, Zero)

  /** Landing from a dive clears only the dive flag: the jump flag stays up and
      the duck flag stays down, so on every later tick with duck still held on
      the floor the dive impulse is applied again; "dive" is played and at once
      replaced by "duck" as the same tick lands. */
  lemma DiveRepeatsOnTheFloor(a: Actor)
    ensures var s1 := Step(Status(Flags(true, false, false), a), Dive);
      var s2 := Step(s1, HoldDuckOnFloor);
      var s3 := Step(s2, HoldDuckOnFloor);
      s1.flags == Flags(true, false, true) &&
      s2.flags == Flags(true, false, false) && s2.actor.animation == "duck" &&
      s3.flags == Flags(true, false, false) && s3.actor.animation == "duck" &&
      s3.actor.velocity == DiveImpulse(s2.actor.velocity)
  {
  }
}
