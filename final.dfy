/** The final controller: a generic state machine that owns one reusable
    instance per state, and the five states that call back into it. The owner
    is a PlayerFinal reduced to what the states change; the values it had are
    described by module FinalSpec, which every method here is proved to follow. */
module Final {
  import opened Player
  import opened FinalSpec

  /** The PlayerFinal the states drive: its velocity and its sprite. */
  class Body {
    var velocity: Vec
    var flipH: bool
    var animation: string

    constructor ()
      ensures View() == Actor(Zero, false, "")
    {
      velocity, flipH, animation := Zero, false, "";
    }

    function View(): Actor
      reads this
    {
      Actor(velocity, flipH, animation)
    }
  }

  /** One state instance: its identity and the machine it calls back into. It
      holds no data of its own, so one instance serves the machine's lifetime. */
  class State {
    const id: Phase
    const parent: StateMachine

    constructor (id: Phase, parent: StateMachine)
      ensures this.id == id && this.parent == parent
    {
      this.id := id;
      this.parent := parent;
    }

    /** Enter touches only the player: it never requests a transition. */
    method Enter(player: Body)
      modifies player
      ensures player.View() == EnterEffect(id, old(player.View()))
    {
      match id
      case Standing =>
        player.animation := "stand";
        player.velocity := Zero;
      case Jumping =>
        player.velocity := player.velocity.(y := JumpVelocity);
        player.animation := "jump";
      case Ducking =>
        player.animation := "duck";
        player.velocity := Zero;
      case Diving =>
        player.velocity := Vec(0.0, player.velocity.y + DiveVelocity);
        player.animation := "dive";
      case Moving =>
        player.animation := "move";
    }

    /** The state's decision table; a transition is requested through the
        parent machine, which then enters the target. */
    method PhysicsProcess(player: Body, inp: Inputs)
      requires parent.Valid() && parent.current == this && player == parent.owner
      modifies parent, player
      ensures parent.Valid() && parent.states == old(parent.states)
      ensures parent.Snap() == Tick(old(parent.Snap()), inp)
    {
      match id
      case Standing =>
        if inp.jumpJustPressed {
          parent.TransitionTo(Jumping);
          return;
        }
        if inp.duckJustPressed {
          parent.TransitionTo(Ducking);
          return;
        }
        if !IsZeroApprox(inp.direction) {
          parent.TransitionTo(Moving);
        }
      case Jumping =>
        if inp.onFloor {
          parent.TransitionTo(Standing);
          return;
        }
        if inp.duckJustPressed {
          parent.TransitionTo(Diving);
          return;
        }
        player.velocity := player.velocity.(x := inp.direction * Speed);
        player.flipH := inp.direction < 0.0;
      case Ducking =>
        if inp.duckJustReleased {
          parent.TransitionTo(Standing);
        }
      case Diving =>
        if !inp.onFloor {
          return;
        }
        if inp.duckPressed {
          parent.TransitionTo(Ducking);
          return;
        }
        parent.TransitionTo(Standing);
      case Moving =>
        if inp.jumpJustPressed {
          parent.TransitionTo(Jumping);
          return;
        }
        if inp.duckPressed {
          parent.TransitionTo(Ducking);
          return;
        }
        if IsZeroApprox(inp.direction) {
          parent.TransitionTo(Standing);
          return;
        }
        player.velocity := player.velocity.(x := inp.direction * Speed);
        player.flipH := inp.direction < 0.0;
    }
  }

  /** StateMachine<PlayerFinal>: the registry of state instances keyed by
      their identity, the nullable current state and the owner. */
  class StateMachine {
    var states: map<Phase, State>
    var current: State?
    const owner: Body
    /** The lines GD.PrintErr reported. */
    var log: seq<string>
    /** Every phase whose Enter this machine called, in order. */
    ghost var entered: seq<Phase>

    /** Each registered instance carries its own key and belongs to this
        machine; the current state, once set, is a registered instance. */
    ghost predicate Valid()
      reads this
    {
      (forall k | k in states :: states[k].id == k && states[k].parent == this) &&
      (current != null ==> current.id in states && states[current.id] == current)
    }

    ghost function Snap(): Machine
      reads this, owner
    {
      Machine(states.Keys, if current == null then None else Some(current.id),
              owner.View(), entered, log)
    }

    /** The base StateMachine: the registry starts out empty. */
    constructor Empty(owner: Body)
      ensures Valid() && this.owner == owner
      ensures Snap() == Machine({}, None, owner.View(), [], [])
    {
      this.owner := owner;
      states := map[];
      current := null;
      log := [];
      entered := [];
    }

    /** PlayerStateMachine: registers the five states, then enters Standing. */
    constructor (owner: Body)
      modifies owner
      ensures Valid() && this.owner == owner
      ensures Snap() == Constructed(old(owner.View()))
      ensures current != null && current.id == Standing
      ensures owner.velocity == Zero && owner.animation == "stand"
    {
      this.owner := owner;
      states := map[];
      current := null;
      log := [];
      entered := [];
      new;
      var standing := new State(Standing, this);
      var jumping := new State(Jumping, this);
      var ducking := new State(Ducking, this);
      var diving := new State(Diving, this);
      var moving := new State(Moving, this);
      states := map[Standing := standing, Jumping := jumping, Ducking := ducking,
                    Diving := diving, Moving := moving];
      assert states.Keys == AllPhases;
      TransitionTo(Standing);
    }

    /** Logs and ignores an unregistered target, ignores the current one, and
        otherwise makes the target current and calls its Enter once. */
    method TransitionTo(target: Phase)
      requires Valid()
      modifies this, owner
      ensures Valid() && states == old(states)
      ensures Snap() == Transition(old(Snap()), target)
      ensures target !in states ==>
        current == old(current) && entered == old(entered) &&
        owner.View() == old(owner.View()) && log == old(log) + [NotFound(target)]
      ensures target in states && old(current) == states[target] ==>
        current == old(current) && entered == old(entered) &&
        owner.View() == old(owner.View()) && log == old(log)
      ensures target in states && old(current) != states[target] ==>
        current == states[target] && entered == old(entered) + [target] &&
        owner.View() == EnterEffect(target, old(owner.View())) && log == old(log)
    {
      if target !in states {
        log := log + [NotFound(target)];
        return;
      }
      var newState := states[target];
      if current == newState {
        return;
      }
      current := newState;
      entered := entered + [target];
      current.Enter(owner);
    }

    /** Delegates the tick to the current state, if there is one. */
    method PhysicsProcess(inp: Inputs)
      requires Valid()
      modifies this, owner
      ensures Valid() && states == old(states)
      ensures Snap() == Tick(old(Snap()), inp)
      ensures old(current) == null ==> Snap() == old(Snap())
    {
      if current != null {
        current.PhysicsProcess(owner, inp);
      }
    }
  }
}
