/** The registry state machine of the final controller, as values: what a
    TransitionTo request and a physics tick do to the machine and its owner.
    The classes in module Final are proved to follow these functions. */
module FinalSpec {
  import opened Player

  /** The five phases a PlayerStateMachine registers. */
  const AllPhases: set<Phase> := {Standing, Jumping, Ducking, Diving, Moving}

  /** The Name each state reports, also used in the "not found" diagnostic. */
  function Name(p: Phase): string
  {
    match p
    case Standing => "StandingState"
    case Jumping => "JumpingState"
    case Ducking => "DuckingState"
    case Diving => "DivingState"
    case Moving => "MovingState"
  }

  function NotFound(p: Phase): string
  {
    "Could not find " + Name(p)
  }

  /** A machine and its owner: the registered phases, the current one, the
      owner's motion and sprite, every phase whose Enter ran (in order) and the
      error log. */
  datatype Machine = Machine(
    registry: set<Phase>,
    current: Option<Phase>,
    actor: Actor,
    entered: seq<Phase>,
    log: seq<string>)

  /** Once set, the current state is one of the registered ones. */
  predicate Registered(m: Machine)
  {
    m.current.Some? ==> m.current.value in m.registry
  }

  /** TransitionTo: an unregistered target is logged and ignored, the current
      target is ignored, any other target becomes current and is entered. */
  function Transition(m: Machine, target: Phase): (r: Machine)
    ensures r.registry == m.registry
    ensures r.current == (if target in m.registry then Some(target) else m.current)
    ensures target !in m.registry ==> r.log == m.log + [NotFound(target)] && r.entered == m.entered
    ensures target in m.registry ==> r.log == m.log
    ensures r.entered == m.entered || r.entered == m.entered + [target]
  {
    if target !in m.registry then
      m.(log := m.log + [NotFound(target)])
    else if m.current == Some(target) then
      m
    else
      m.(current := Some(target), actor := EnterEffect(target, m.actor), entered := m.entered + [target])
  }

  /** The transition a state's PhysicsProcess requests, checked in its priority
      order; None when it requests none. */
  function Request(p: Phase, inp: Inputs): (r: Option<Phase>)
    ensures r.Some? ==> r.value != p && Edge(p, r.value)
    ensures p == Ducking ==> (r.Some? <==> inp.duckJustReleased)
    ensures p == Diving ==> (r.Some? <==> inp.onFloor)
  {
    match p
    case Standing =>
      if inp.jumpJustPressed then Some(Jumping)
      else if inp.duckJustPressed then Some(Ducking)
      else if !IsZeroApprox(inp.direction) then Some(Moving)
      else None
    case Jumping =>
      if inp.onFloor then Some(Standing)
      else if inp.duckJustPressed then Some(Diving)
      else None
    case Ducking =>
      if inp.duckJustReleased then Some(Standing) else None
    case Diving =>
      if !inp.onFloor then None
      else if inp.duckPressed then Some(Ducking)
      else Some(Standing)
    case Moving =>
      if inp.jumpJustPressed then Some(Jumping)
      else if inp.duckPressed then Some(Ducking)
      else if IsZeroApprox(inp.direction) then Some(Standing)
      else None
  }

  /** What a state does to its owner on a tick where it requests nothing:
      Jumping and Moving steer, the others leave the owner alone. */
  function Hold(p: Phase, a: Actor, inp: Inputs): Actor
  {
    if p == Jumping || p == Moving then Steer(a, inp.direction) else a
  }

  /** StateMachine.PhysicsProcess: nothing without a current state, otherwise
      one call of the current state's PhysicsProcess. */
  function Tick(m: Machine, inp: Inputs): (r: Machine)
    ensures r.registry == m.registry
    ensures m.registry == AllPhases ==> r.log == m.log
    ensures Registered(m) ==> Registered(r)
    ensures m.current.None? ==> r == m
    ensures m.current.Some? ==> r.current.Some? && (r.current == m.current || Edge(m.current.value, r.current.value))
  {
    match m.current
    case None => m
    case Some(p) =>
      match Request(p, inp)
      case Some(t) => Transition(m, t)
      case None => m.(actor := Hold(p, m.actor, inp))
  }

  /** A run of consecutive ticks. */
  function Run(m: Machine, ins: seq<Inputs>): (r: Machine)
    ensures r.registry == m.registry
    decreases |ins|
  {
    if ins == [] then m else Run(Tick(m, ins[0]), ins[1..])
  }

  /** The machine a PlayerStateMachine constructor leaves behind: all five
      phases registered and Standing entered once. */
  function Constructed(owner: Actor): (r: Machine)
    ensures Registered(r) && r.registry == AllPhases && r.current == Some(Standing)
  {
    Transition(Machine(AllPhases, None, owner, [], []), Standing)
  }

  // ----- TransitionTo ---------------------------------------------------------

  lemma TransitionUnregistered(m: Machine, target: Phase)
    requires target !in m.registry
    ensures Transition(m, target) == m.(log := m.log + [NotFound(target)])
  {
  }

  lemma TransitionToCurrent(m: Machine, target: Phase)
    requires target in m.registry && m.current == Some(target)
    ensures Transition(m, target) == m
  {
  }

  lemma TransitionSwaps(m: Machine, target: Phase)
    requires target in m.registry && m.current != Some(target)
    ensures var r := Transition(m, target);
      r.current == Some(target) && r.entered == m.entered + [target] &&
      r.actor == EnterEffect(target, m.actor) && r.log == m.log && r.registry == m.registry
  {
  }

  /** A second request for the same target changes nothing, so Enter runs at
      most once per activation. */
  lemma TransitionIdempotent(m: Machine, target: Phase)
    requires target in m.registry
    ensures Transition(Transition(m, target), target) == Transition(m, target)
  {
  }

  /** The base machine registers nothing: every request is a logged no-op. */
  lemma EmptyRegistryOnlyLogs(m: Machine, target: Phase)
    requires m.registry == {}
    ensures Transition(m, target).current == m.current
    ensures Transition(m, target).actor == m.actor
    ensures Transition(m, target).entered == m.entered
    ensures Transition(m, target).log == m.log + [NotFound(target)]
  {
  }

  lemma ConstructedState(owner: Actor)
    ensures var m := Constructed(owner);
      m.registry == AllPhases && m.current == Some(Standing) && m.entered == [Standing] &&
      m.log == [] && m.actor == owner.(velocity := Zero, animation := "stand")
  {
  }

  // ----- ticks ----------------------------------------------------------------

  lemma TickKeepsRegistered(m: Machine, inp: Inputs)
    requires Registered(m)
    ensures Registered(Tick(m, inp)) && Tick(m, inp).registry == m.registry
  {
  }

  /** Whatever the inputs, the current state stays a registered one. */
  lemma {:induction false} RunKeepsRegistered(m: Machine, ins: seq<Inputs>)
    requires Registered(m)
    ensures Registered(Run(m, ins))
    decreases |ins|
  {
    if ins != [] {
      TickKeepsRegistered(m, ins[0]);
      RunKeepsRegistered(Tick(m, ins[0]), ins[1..]);
    }
  }

  /** One tick changes the current state at most once, along a transition
      the state tables take, and appends at most one Enter. */
  lemma TickFollowsEdge(m: Machine, inp: Inputs)
    requires m.current.Some?
    ensures var r := Tick(m, inp);
      r.current.Some? &&
      (r.current == m.current || Edge(m.current.value, r.current.value)) &&
      (r.entered == m.entered || r.entered == m.entered + [r.current.value])
  {
  }

  /** Standing requests at most one transition and never moves the owner
      itself: the only velocity change on its tick is the target's Enter. */
  lemma StandingNeverSteers(m: Machine, inp: Inputs)
    requires m.current == Some(Standing)
    ensures Request(Standing, inp) == None ==> Tick(m, inp) == m
  {
  }

  /** Jumping in the air and Moving with the axis deflected only steer: X
      follows the axis, the sprite faces the axis, Y and the state are kept. */
  lemma HoldSteers(m: Machine, inp: Inputs)
    requires m.current == Some(Jumping) || m.current == Some(Moving)
    requires Request(m.current.value, inp) == None
    ensures var r := Tick(m, inp);
      r.current == m.current && r.entered == m.entered &&
      r.actor.velocity == Vec(inp.direction * Speed, m.actor.velocity.y) &&
      r.actor.flipH == (inp.direction < 0.0) && r.actor.animation == m.actor.animation
  {
  }

  /** Ducking ignores jump and the axis: without a release it stays, untouched. */
  lemma {:induction false} DuckingIsSticky(m: Machine, ins: seq<Inputs>)
    requires m.current == Some(Ducking)
    requires forall i | 0 <= i < |ins| :: !ins[i].duckJustReleased
    ensures Run(m, ins) == m
    decreases |ins|
  {
    if ins != [] {
      assert Tick(m, ins[0]) == m;
      DuckingIsSticky(m, ins[1..]);
    }
  }

  /** Diving never transitions, nor moves the owner, while airborne. */
  lemma {:induction false} DivingHoldsInTheAir(m: Machine, ins: seq<Inputs>)
    requires m.current == Some(Diving)
    requires forall i | 0 <= i < |ins| :: !ins[i].onFloor
    ensures Run(m, ins) == m
    decreases |ins|
  {
    if ins != [] {
      assert Tick(m, ins[0]) == m;
      DivingHoldsInTheAir(m, ins[1..]);
    }
  }

  lemma {:induction false} RunAppend(m: Machine, a: seq<Inputs>, b: seq<Inputs>)
    ensures Run(m, a + b) == Run(Run(m, a), b)
    decreases |a|
  {
    if a != [] {
      assert (a + b)[0] == a[0];
      assert (a + b)[1..] == a[1..] + b;
      RunAppend(Tick(m, a[0]), a[1..], b);
    } else {
      assert a + b == b;
    }
  }

  /** An input tick with nothing pressed, on the floor, axis at rest. */
  const Rest: Inputs := Inputs(false, false, false, false, false, true, 0.0, Zero)

  /** Inputs that lead from phase p back to Standing in at most one tick. */
  function Home(p: Phase): seq<Inputs>
  {
    match p
    case Standing => []
    case Ducking => [Rest.(duckJustReleased := true)]
    case _ => [Rest]
  }

  /** Inputs that lead from Standing to phase q in at most two ticks. */
  function Away(q: Phase): seq<Inputs>
  {
    match q
    case Standing => []
    case Jumping => [Rest.(jumpJustPressed := true, jumpPressed := true)]
    case Ducking => [Rest.(duckJustPressed := true, duckPressed := true)]
    case Moving => [Rest.(direction := 1.0)]
    case Diving =>
      [Rest.(jumpJustPressed := true, jumpPressed := true),
       Rest.(onFloor := false, duckJustPressed := true, duckPressed := true)]
  }

  lemma {:induction false} HomeReachesStanding(m: Machine, p: Phase)
    requires m.registry == AllPhases && m.current == Some(p)
    ensures Run(m, Home(p)).current == Some(Standing)
  {
    if p != Standing {
      var t := Tick(m, Home(p)[0]);
      assert t.current == Some(Standing);
      assert Run(t, []) == t;
      assert Home(p)[1..] == [];
    }
  }

  lemma {:induction false} AwayReachesPhase(m: Machine, q: Phase)
    requires m.registry == AllPhases && m.current == Some(Standing)
    ensures Run(m, Away(q)).current == Some(q)
  {
    var w := Away(q);
    if q == Diving {
      var t1 := Tick(m, w[0]);
      assert t1.current == Some(Jumping);
      var t2 := Tick(t1, w[1]);
      assert t2.current == Some(Diving);
      assert w[1..][1..] == [];
      assert Run(t1, w[1..]) == Run(t2, []);
    } else if q != Standing {
      var t := Tick(m, w[0]);
      assert t.current == Some(q);
      assert w[1..] == [];
    }
  }

  /** Every phase reaches every phase, through Standing, in at most three
      ticks: the graph is strongly connected and has no terminal state. */
  lemma EveryPhaseReachable(m: Machine, p: Phase, q: Phase)
    requires m.registry == AllPhases && m.current == Some(p)
    ensures exists ins: seq<Inputs> :: |ins| <= 3 && Run(m, ins).current == Some(q)
  {
    HomeReachesStanding(m, p);
    var h := Run(m, Home(p));
    AwayReachesPhase(h, q);
    RunAppend(m, Home(p), Away(q));
    assert Run(m, Home(p) + Away(q)).current == Some(q);
  }
}
