/** The state-pattern controller: five state classes whose PhysicsProcess
    returns the next state, one shared instance of each, and the player that
    swaps and enters the returned state. */
module StatePattern {
  import opened Player
  import opened PatternSpec

  class State {
    const kind: Phase

    constructor (kind: Phase)
      ensures this.kind == kind
    {
      this.kind := kind;
    }

    method Enter(player: PlayerStatePattern)
      modifies player`velocity, player`animation
      ensures player.View() == EnterEffect(kind, old(player.View()))
    {
      match kind
      case Standing =>
        player.animation := "stand";
        player.velocity := Zero;
      case Jumping =>
        player.velocity := player.velocity.(y := JumpVelocity);
        player.animation := "jump";
      case Ducking =>
        player.animation := "duck";
        player.velocity := Zero;
      case Diving =>
        player.velocity := Vec(0.0, player.velocity.y + DiveVelocity);
        player.animation := "dive";
      case Moving =>
        player.animation := "move";
    }

    /** Returns one of the shared instances, or null to stay. */
    method PhysicsProcess(player: PlayerStatePattern, inp: Inputs) returns (next: State?)
      requires player.shared.Valid()
      modifies player`velocity, player`flipH
      ensures next == player.shared.Resolve(Next(kind, inp))
      ensures player.View() == Process(kind, old(player.View()), inp)
    {
      var shared := player.shared;
      match kind
      case Standing =>
        if inp.jumpJustPressed {
          return shared.jumping;
        }
        if inp.duckJustPressed {
          return shared.ducking;
        }
        if !IsZeroApprox(inp.direction) {
          return shared.moving;
        }
        return null;
      case Jumping =>
        if inp.onFloor {
          return shared.standing;
        }
        if inp.duckJustPressed {
          return shared.diving;
        }
        player.velocity := player.velocity.(x := inp.direction * Speed);
        player.flipH := inp.direction < 0.0;
        return null;
      case Ducking =>
        if inp.duckJustReleased {
          return shared.standing;
        }
        return null;
      case Diving =>
        if !inp.onFloor {
          return null;
        }
        if inp.duckPressed {
          return shared.ducking;
        }
        return shared.standing;
      case Moving =>
        if inp.jumpPressed {
          return shared.jumping;
        }
        if inp.duckPressed {
          return shared.ducking;
        }
        if IsZeroApprox(inp.direction) {
          return shared.standing;
        }
        player.velocity := player.velocity.(x := inp.direction * Speed);
        player.flipH := inp.direction < 0.0;
        return null;
    }
  }

  /** The static instances of the State base class: one per kind. */
  class Shared {
    const standing: State
    const jumping: State
    const ducking: State
    const diving: State
    const moving: State

    ghost predicate Valid()
    {
      standing.kind == Standing && jumping.kind == Jumping && ducking.kind == Ducking &&
      diving.kind == Diving && moving.kind == Moving
    }

    constructor ()
      ensures Valid()
    {
      standing := new State(Standing);
      jumping := new State(Jumping);
      ducking := new State(Ducking);
      diving := new State(Diving);
      moving := new State(Moving);
    }

    function Of(k: Phase): (s: State)
      requires Valid()
      ensures s.kind == k
    {
      match k
      case Standing => standing
      case Jumping => jumping
      case Ducking => ducking
      case Diving => diving
      case Moving => moving
    }

    function Resolve(o: Option<Phase>): State?
      requires Valid()
    {
      match o
      case None => null
      case Some(k) => Of(k)
    }
  }

  /** PlayerStatePattern: the body, its sprite and its current state. */
  class PlayerStatePattern {
    var velocity: Vec
    var flipH: bool
    var animation: string
    var current: State?
    const shared: Shared
    /** Every phase whose Enter the player called, in order. */
    ghost var entered: seq<Phase>

    /** The current state is a shared instance, or the Standing instance that
        _Ready created. */
    ghost predicate Valid()
      reads this
    {
      shared.Valid() &&
      (current != null ==> current == shared.Of(current.kind) || current.kind == Standing)
    }

    function View(): Actor
      reads this
    {
      Actor(velocity, flipH, animation)
    }

    ghost function Snap(): Pattern
      reads this
    {
      Pattern(if current == null then None else Some(current.kind), View(), entered)
    }

    /** The node as created, before _Ready: no state yet. */
    constructor (shared: Shared)
      requires shared.Valid()
      ensures Valid() && this.shared == shared
      ensures Snap() == Pattern(None, Actor(Zero, false, ""), [])
    {
      this.shared := shared;
      velocity, flipH, animation := Zero, false, "";
      current := null;
      entered := [];
    }

    /** _Ready: a new Standing instance, distinct from the shared one, becomes
        current without its Enter being called. */
    method Ready()
      requires Valid()
      modifies this`current
      ensures Valid() && fresh(current)
      ensures current != null && current.kind == Standing && current != shared.Of(Standing)
      ensures Snap() == old(Snap()).(current := Some(Standing))
    {
      current := new State(Standing);
    }

    method PhysicsProcess(inp: Inputs)
      requires Valid()
      modifies this
      ensures Valid()
      ensures Snap() == Step(old(Snap()), inp)
      ensures old(current) != null && Next(old(current).kind, inp).None? ==> current == old(current)
      ensures current != old(current) ==> current != null && current == shared.Of(current.kind)
    {
      if !inp.onFloor {
        velocity := velocity.Plus(inp.gravity);
      }
      var newState: State? := null;
      if current != null {
        newState := current.PhysicsProcess(this, inp);
      }
      if newState != null && newState != current {
        current := newState;
        entered := entered + [newState.kind];
        newState.Enter(this);
      }
    }
  }
}
