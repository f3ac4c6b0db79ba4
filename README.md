# Player state management, modelled in Dafny

The repository implements one small platformer behaviour four times. A player
is Standing, Jumping, Ducking, Diving or Moving, and once per physics tick it
reads a few input signals. The signals are:

- the jump and duck edges ("just pressed", "just released") and levels ("pressed");
- the floor test;
- the horizontal axis.

The player then updates its velocity, its sprite's facing and its animation,
and possibly its phase. The four versions are:

- **Final** (`Final/StateMachine.cs`, `Final/State.cs`): a generic state machine.
  It keeps a registry with one reusable instance per state and a nullable
  current state. `TransitionTo` logs and ignores an unregistered state, ignores
  the current one, and otherwise swaps the current state and calls its `Enter`.
  Each state's `PhysicsProcess` is a priority-ordered decision table that calls
  back into the machine.
- **StatePattern** (`StatePattern/State.cs`, `StatePattern/PlayerStatePattern.cs`):
  each state's `PhysicsProcess` returns the next state or null. The player
  swaps and enters a returned state that differs from its current one.
- **Enum** (`Enum/PlayerEnum.cs`): one `switch` over a `State` enum field.
- **Basic** (`Basic/PlayerBasic.cs`): three boolean flags set and cleared by an
  if/else chain.

Each version is modelled as written, in its own imperative form:

- a class whose fields the source updates;
- methods with `modifies` clauses;
- for every tick, a specification function on values that the method is
  proved to follow (`Snap() == Step(old(Snap()), inp)`).

The properties are then proved about those functions. The modules are:

- `Player` (player.dfy) holds the shared vocabulary. That is the constants
  (Speed 300, JumpVelocity -650, DiveVelocity = -JumpVelocity * 0.75 = 487.5),
  the velocity vector, the tick inputs, the five phases, `Edge` (the transitions
  the five state tables take), and the `Enter` table `EnterEffect`, which Final and
  StatePattern share.
- `FinalSpec` / `Final` (final_spec.dfy, final.dfy) hold the registry machine.
  `Final.StateMachine` has a `map<Phase, State>` registry, a `State?` current
  slot, the owner, the error log and a ghost record of every `Enter` call.
  `Final.State` has a `const` identity and a `const` back-reference to its
  machine.
- `PatternSpec` / `StatePattern` (pattern_spec.dfy, pattern.dfy) hold the
  returned-next-state version. The static instances are the five `const`
  fields of a `Shared` object. Returned states are compared by reference, as
  in the source.
- `EnumPlayer` (enum_player.dfy) and `BasicPlayer` (basic_player.dfy) hold
  the two single-class versions.

The versions differ, and the lemmas show where:

- StatePattern's Moving jumps while jump is *held*. Final's Moving jumps only on
  the tick it is pressed. `PatternSpec.AgreesWithFinal` and
  `PatternSpec.MovingHeldJumpDiffers` show this.
- In the Enum version, Standing tests jump and then, in a separate `if`, duck or
  move. On one tick a jump's velocity can combine with the Ducking or Moving
  state (`EnumPlayer.StandingJumpIsOverridden`).
- In the Enum version, landing from a dive with duck held keeps the dive's
  velocity. Final's Ducking `Enter` zeroes it
  (`EnumPlayer.DivingLandingDiffersFromFinal`).

Notes on the code as written:

- Final's states call `TransitionTo` themselves rather than returning a
  request.
- StatePattern's Moving tests jump held, not a jump edge.
- In the Enum and Basic versions, Moving checks jump before duck.
- Final's `PhysicsProcess` applies no gravity: `PlayerFinal` does that before
  calling it.

Two behaviours of the source are proved rather than assumed:

- No `PatternSpec.Next` result ever equals the current state's kind, so the
  player's "same state" guard (`StatePattern/PlayerStatePattern.cs:35`) never
  refuses a non-null result. The initial `StandingState` is a fresh instance,
  different from every shared one, so the reference comparison agrees with a
  comparison of kinds.
- In the Basic version, the inner duck test of the dive-landing branch
  re-reads a signal that is held on that path, so its "stand, zero velocity"
  alternative is dead code (the method has `assert false` there). Also,
  landing clears only `_isDiving`, so each further tick on the floor with duck
  held applies the dive impulse again (`BasicPlayer.DiveRepeatsOnTheFloor`).

## Model

| member | source | states |
|---|---|---|
| `Player.EnterEffect` | Final/State.cs:25-134 | The `Enter` table. Standing and Ducking zero the velocity. Jumping sets Y to JumpVelocity and keeps X. Diving sets X to 0 and adds DiveVelocity to Y. Moving keeps the velocity. No `Enter` touches the sprite's facing. |
| `FinalSpec.Transition` | Final/StateMachine.cs:20-36 | The value model of `TransitionTo`. The registry never changes. A registered target is current afterwards, and an unregistered one leaves the current state as it was and appends "Could not find …" to the log. At most the target is appended to the `Enter` record. |
| `FinalSpec.Tick` | Final/StateMachine.cs:38-41 | One machine tick: the current state's decision table (Final/State.cs:31-158), then the requested transition. Without a current state nothing changes. Otherwise the state stays set and either stays or follows an `Edge`. The registry is kept, a registered current state stays registered, and with all five registered nothing is logged. |
| `FinalSpec.Constructed` | Final/StateMachine.cs:46-57 | The machine the constructor leaves: all five phases registered and Standing current. |
| `FinalSpec.Request` | Final/State.cs:31-158 | The transition a state requests: never itself and always along an `Edge` (a transition the state tables take). Ducking requests one exactly when duck is released. Diving requests one exactly when on the floor. |
| `FinalSpec.Run` | Final/StateMachine.cs:16-41 | No sequence of ticks changes the set of registered states. |
| `FinalSpec.TransitionUnregistered` | Final/StateMachine.cs:22-27 | An unregistered target only appends "Could not find …" to the log. |
| `FinalSpec.TransitionToCurrent` | Final/StateMachine.cs:29-32 | Requesting the current state changes nothing. |
| `FinalSpec.TransitionSwaps` | Final/StateMachine.cs:34-35 | A registered, different target becomes current. Its `Enter` is applied and recorded once. The log and the registry are kept. |
| `FinalSpec.TransitionIdempotent` | Final/StateMachine.cs:29-35 | Repeating a request for a registered target changes nothing, so `Enter` runs at most once per activation. |
| `FinalSpec.EmptyRegistryOnlyLogs` | Final/StateMachine.cs:16-27 | With the base machine's empty registry, every request is a logged no-op. |
| `FinalSpec.ConstructedState` | Final/StateMachine.cs:46-57 | After construction, all five phases are registered and Standing is current. Standing's `Enter` has run once: velocity zero, "stand" playing, empty log. |
| `FinalSpec.TickKeepsRegistered` | Final/StateMachine.cs:38-41 | One tick keeps the registry, and keeps the current state a registered one. |
| `FinalSpec.RunKeepsRegistered` | Final/StateMachine.cs:20-41 | Over any sequence of ticks, the current state, once set, stays a registered one. |
| `FinalSpec.TickFollowsEdge` | Final/State.cs:31-158 | A tick changes the state at most once, along an `Edge`, and records at most one `Enter`. |
| `FinalSpec.StandingNeverSteers` | Final/State.cs:31-49 | Standing without a request leaves machine and owner untouched. |
| `FinalSpec.HoldSteers` | Final/State.cs:62-158 | Jumping and Moving without a request set X = direction * Speed and FlipH = direction < 0. They keep Y, the state and the animation. |
| `FinalSpec.DuckingIsSticky` | Final/State.cs:91-97 | From Ducking, any run of the machine's ticks without a duck release leaves machine and owner unchanged, whatever jump and the axis do. Gravity, which `PlayerFinal` adds before each tick, is not part of these ticks. |
| `FinalSpec.DivingHoldsInTheAir` | Final/State.cs:110-115 | From Diving, any run of the machine's airborne ticks leaves machine and owner unchanged. Gravity, which `PlayerFinal` adds before each tick, is not part of these ticks. |
| `FinalSpec.EveryPhaseReachable` | Final/State.cs:31-158 | With all five registered, every phase reaches every phase within three ticks: strongly connected, no terminal state. |
| `Final.State.Enter` | Final/State.cs:25-134 | Changes only the player, to `EnterEffect` of the state's identity, so it cannot request a transition. |
| `Final.State.PhysicsProcess` | Final/State.cs:31-158 | The machine and owner afterwards are `Tick` of the state before, with `Request`'s priority order. The registry is kept and the machine stays valid. |
| `Final.StateMachine.Empty` | Final/StateMachine.cs:14-17 | The base machine starts with an empty registry and no current state. |
| `Final.StateMachine.constructor` | Final/StateMachine.cs:46-58 | Registers one instance per phase, each keyed by its own identity and pointing back to this machine. Then Standing is entered once: velocity zero, "stand". |
| `Final.StateMachine.TransitionTo` | Final/StateMachine.cs:20-36 | Unregistered target: only the log grows. Current target: nothing changes. Otherwise the target's instance becomes current and its `Enter` runs exactly once. The registry never changes. |
| `Final.StateMachine.PhysicsProcess` | Final/StateMachine.cs:38-41 | Without a current state nothing changes. Otherwise the result is exactly one `Tick` of the current state. |
| `PatternSpec.Next` | StatePattern/State.cs:36-155 | The returned state is never the state itself and is always along an `Edge`. Ducking returns one exactly on a duck release. Diving returns one exactly on the floor. |
| `PatternSpec.Process` | StatePattern/State.cs:77-78 | What a state does to the player before it returns (also StatePattern/State.cs:151-152). Y and the animation are never touched. Standing, Ducking, Diving, and any state that returns a next state, leave the player alone. Jumping and Moving returning null set X to direction * Speed, keep Y, and face the sprite along the axis. |
| `PatternSpec.Step` | StatePattern/PlayerStatePattern.cs:27-42 | One tick of the player. Without a state, the state stays unset and no `Enter` runs. With one, it stays set and either stays or follows an `Edge`. The `Enter` record grows by exactly the new state when the state changes, and not at all otherwise. |
| `PatternSpec.Run` | StatePattern/PlayerStatePattern.cs:34-39 | Once the player has a state, no sequence of ticks takes it away. |
| `PatternSpec.NullKeepsState` | StatePattern/PlayerStatePattern.cs:34-35 | A null result keeps the current state and calls no `Enter`. |
| `PatternSpec.DifferentResultEnters` | StatePattern/PlayerStatePattern.cs:29-39 | A non-null result becomes current in the same tick, with one `Enter`. The order is gravity, then the old state's update, then `Enter`. |
| `PatternSpec.DuckingIsSticky` | StatePattern/State.cs:92-100 | From Ducking, without a duck release, the player stays Ducking and no `Enter` runs. |
| `PatternSpec.AgreesWithFinal` | StatePattern/State.cs:36-155 | The returned state equals the final version's request, except for Moving when the jump edge (just pressed) and the jump level (held) disagree. |
| `PatternSpec.MovingHeldJumpDiffers` | StatePattern/State.cs:134-139 | With jump held since an earlier tick, Moving goes to Jumping here and stays Moving in the final version. |
| `StatePattern.State.Enter` | StatePattern/State.cs:30-132 | Changes only the player's velocity and animation, to `EnterEffect` of the state's kind. |
| `StatePattern.State.PhysicsProcess` | StatePattern/State.cs:36-155 | Returns the shared instance of `Next`'s result, or null. Jumping and Moving steer only on ticks where they return null. |
| `StatePattern.Shared.constructor` | StatePattern/State.cs:21-25 | One static instance per state kind. |
| `StatePattern.Shared.Of` | StatePattern/State.cs:21-25 | The shared instance for a kind has that kind, so distinct kinds give distinct instances. |
| `StatePattern.PlayerStatePattern.constructor` | StatePattern/PlayerStatePattern.cs:10-19 | Before `_Ready` the player has no state, zero velocity and no animation. |
| `StatePattern.PlayerStatePattern.Ready` | StatePattern/PlayerStatePattern.cs:21-25 | The current state becomes a new Standing instance, distinct from the shared one. Its `Enter` is not called. |
| `StatePattern.PlayerStatePattern.PhysicsProcess` | StatePattern/PlayerStatePattern.cs:27-42 | The player afterwards is `PatternSpec.Step` of the player before. Gravity applies only when airborne. A null or equal result changes no state, and a null result keeps the very same instance. A different one is a shared instance, swapped in and entered once. |
| `EnumPlayer.Step` | Enum/PlayerEnum.cs:29-138 | A tick either keeps the state or takes an `Edge` (a transition the state tables take). Every way into Standing from another state zeroes the velocity. |
| `EnumPlayer.PlayerEnum.constructor` | Enum/PlayerEnum.cs:22 | The initial state is Standing. |
| `EnumPlayer.PlayerEnum.PhysicsProcess` | Enum/PlayerEnum.cs:29-138 | The fields afterwards are `EnumPlayer.Step` of the fields before. |
| `EnumPlayer.StandingJumpIsOverridden` | Enum/PlayerEnum.cs:43-60 | From Standing, a jump press sets Y = JumpVelocity. A duck press or a deflected axis on the same tick still moves the state on to Ducking or Moving. |
| `EnumPlayer.StandingAtRest` | Enum/PlayerEnum.cs:42-62 | From Standing with no jump, duck or axis, only gravity changes anything. |
| `EnumPlayer.DivingLanding` | Enum/PlayerEnum.cs:93-109 | On landing, duck held gives Ducking with the velocity kept. Otherwise Standing with the velocity zeroed. |
| `EnumPlayer.MovingPriority` | Enum/PlayerEnum.cs:110-133 | Moving checks in order: jump press (Y set), duck held, resting axis (Standing, zeroed), else steer. |
| `EnumPlayer.DuckingHoldsStill` | Enum/PlayerEnum.cs:84-92 | Over any non-empty run without a duck release, Ducking persists with velocity zero and sprite unchanged. |
| `EnumPlayer.DivingFallsInTheAir` | Enum/PlayerEnum.cs:93-109 | Over any airborne run, Diving persists with sprite unchanged. |
| `EnumPlayer.JumpingAgreesWithFinal` | Enum/PlayerEnum.cs:63-83 | In Jumping, the enum tick equals the final machine's tick after gravity: state, velocity, facing and animation. |
| `EnumPlayer.DivingLandingDiffersFromFinal` | Enum/PlayerEnum.cs:93-100 | Landing in Ducking keeps a non-zero velocity here. The final version zeroes it. |
| `BasicPlayer.Step` | Basic/PlayerBasic.cs:35-117 | A jump press while not ducking raises only `_isJumping` and sets Y. `_isDucking` is raised only with the velocity zeroed. `_isDiving` is raised and kept only by an airborne dive out of a jump, with X = 0. |
| `BasicPlayer.PlayerBasic.constructor` | Basic/PlayerBasic.cs:24-26 | All flags start cleared. |
| `BasicPlayer.PlayerBasic.PhysicsProcess` | Basic/PlayerBasic.cs:35-117 | The fields afterwards are `BasicPlayer.Step` of the fields before. |
| `BasicPlayer.NoSecondImpulseWhileDiving` | Basic/PlayerBasic.cs:52-65 | An airborne dive already under way gets no second impulse. |
| `BasicPlayer.DiveLandingNeverStands` | Basic/PlayerBasic.cs:62-78 | Landing from a dive with duck held always plays "duck" and keeps the velocity. The "stand" alternative is never taken. |
| `BasicPlayer.DuckHeldWhileNotJumping` | Basic/PlayerBasic.cs:79-84 | Duck held while neither jumping nor diving zeroes the velocity and raises `_isDucking`, in the air as on the floor. |
| `BasicPlayer.DuckReleaseOnlyClearsFlag` | Basic/PlayerBasic.cs:86-89 | A duck release while ducking clears `_isDucking` and nothing else. |
| `BasicPlayer.AtRestClearsAll` | Basic/PlayerBasic.cs:90-97 | On the floor with a resting axis and no duck, every flag clears and the velocity is zeroed. |
| `BasicPlayer.FallthroughSteers` | Basic/PlayerBasic.cs:98-113 | In the fallthrough branch, the floor clears `_isJumping` and `_isDiving` and plays "move". X and FlipH follow the axis. |
| `BasicPlayer.DiveRepeatsOnTheFloor` | Basic/PlayerBasic.cs:52-78 | After a dive lands with duck held, `_isJumping` stays up. The next tick on the floor with duck held applies the dive impulse again, and the tick ends with "duck" playing. |

## Left out

- Godot plumbing is left out: `GetNode`, `_Ready`'s sprite lookup, `MoveAndSlide` and the collision response it applies to the velocity. The model's velocity is the one handed to `MoveAndSlide`.
- Input polling and `IsOnFloor()` are not modelled as calls: the per-tick `Inputs` record carries them. Nothing relates the edge signals to the level signals across ticks.
- Gravity is not modelled. It is the engine-supplied increment `GetGravity() * delta`, given as the `gravity` field of `Inputs` and added only when airborne. The `delta` argument is otherwise unused by the logic and is dropped.
- Floating point is left out. Velocities and the axis are `real`, and `Mathf.IsZeroApprox` is an exact test for zero, without its tolerance.
- `Sprite2D.Play` is recorded only as the name of the last animation played. Playback itself is left out.
- `GD.PrintErr` output is left out. It is modelled as an appended line in the machine's `log`.
- The type-keyed `Dictionary<Type, State>` is not modelled as such. It is keyed by the `Phase` datatype instead, and the generic `TOwner` is fixed to the player.
- StatePattern's protected static instances are not modelled as statics. They are the `const` fields of a `Shared` object that the player holds and the states reach through the player.
- `Final/PlayerFinal.cs` is glue and is left out, apart from its constants: gravity, the call to the machine, and the diagnostic label showing `CurrentState?.Name`. `FinalSpec.Name` gives the names used in the log.
- Re-entrant transitions from `Enter` are not modelled: every `Enter` may change only the player, so it cannot call back into the machine.
