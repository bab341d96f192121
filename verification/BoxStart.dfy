/** The staged start of libcore/sing-box/box.go on top of a lifecycle scope. */
module BoxStart {
  import opened Scope

  datatype Component =
    | HttpClient | Network | DnsTransport | DnsRouter | Connection | Router | Outbound | Endpoint
    | CertificateProvider | Inbound | Service | Internal(i: nat)

  datatype Stage = Initialize | Start | PostStart | Started

  /** One step of the schedule. */
  datatype Action = StartLogger | StartDebugServer | StartNtp | Invoke(c: Component, stage: Stage)

  const LOGGER := 0
  const DEBUG_SERVER := 1
  const NTP := 2

  /** How the start of something that is not a component ends: it may be absent, and what has
      started is closed by a hook of the box's own scope. */
  datatype Simple = Absent | Runs | Fails

  /** What every step would do. */
  datatype World = World(logger: Simple, debugServer: Simple, ntp: Simple, startup: (Component, Stage) -> Startup)
  {
    predicate Succeeds(a: Action) {
      match a
      case StartLogger => logger != Fails
      case StartDebugServer => debugServer != Fails
      case StartNtp => ntp != Fails
      case Invoke(c, stage) => startup(c, stage).ok
    }
  }

  function WithSimple(t: Tree<Component>, s: Simple, hook: int): Tree<Component> {
    if s == Runs then WithHook(t, hook) else t
  }

  /** The effect of one step on the box's scope. */
  function Act(w: World, t: Tree<Component>, a: Action): Tree<Component> {
    match a
    case StartLogger => WithSimple(t, w.logger, LOGGER)
    case StartDebugServer => WithSimple(t, w.debugServer, DEBUG_SERVER)
    case StartNtp => WithSimple(t, w.ntp, NTP)
    case Invoke(c, stage) => WithStart(t, c, w.startup(c, stage).hooks)
  }

  /** How a list of steps ends: whether all succeeded, the scope then, and the steps taken. */
  datatype Outcome = Outcome(ok: bool, scope: Tree<Component>, taken: seq<Action>)

  /** Takes the steps in order until one fails. */
  function Run(w: World, t: Tree<Component>, actions: seq<Action>): Outcome {
    if actions == [] then Outcome(true, t, [])
    else
      var r, last := Run(w, t, actions[..|actions| - 1]), actions[|actions| - 1];
      if !r.ok then r else Outcome(w.Succeeds(last), Act(w, r.scope, last), r.taken + [last])
  }

  // ---------------------------------------------------------------- the schedule

  function Each(stage: Stage, components: seq<Component>): (actions: seq<Action>)
    ensures |actions| == |components|
  {
    seq(|components|, k requires 0 <= k < |components| => Invoke(components[k], stage))
  }

  function Services(n: nat): (components: seq<Component>)
    ensures |components| == n
  {
    seq(n, i requires 0 <= i => Internal(i))
  }

  const INITIALIZED := [HttpClient, Network, DnsTransport, DnsRouter, Connection, Router, Outbound, Endpoint,
                        CertificateProvider, Inbound, Service]
  const STARTED_FIRST := [Outbound, DnsTransport, Network, Connection, HttpClient, Router, DnsRouter]
  const STARTED_LAST := [Endpoint, CertificateProvider, Inbound, Service]
  const POST_STARTED := [Outbound, Network, DnsTransport, DnsRouter, Connection, Router, Endpoint,
                         CertificateProvider, Inbound, Service]
  const FINISHED := [Network, DnsTransport, DnsRouter, Connection, Router, Outbound, Endpoint,
                     CertificateProvider, Inbound, Service]

  const PIECES := 12
  const PRE_START := 5

  /** The pieces of the start of a box with n internal services, in order. */
  function Piece(n: nat, k: nat): seq<Action> {
    match k
    case 0 => [StartLogger]
    case 1 => [StartDebugServer]
    case 2 => Each(Initialize, Services(n))
    case 3 => Each(Initialize, INITIALIZED)
    case 4 => Each(Start, STARTED_FIRST)
    case 5 => Each(Start, Services(n))
    case 6 => [StartNtp]
    case 7 => Each(Start, STARTED_LAST)
    case 8 => Each(PostStart, POST_STARTED)
    case 9 => Each(PostStart, Services(n))
    case 10 => Each(Started, FINISHED)
    case 11 => Each(Started, Services(n))
    case _ => []
  }

  /** The first k pieces. */
  function Plan(n: nat, k: nat): seq<Action> {
    if k == 0 then [] else Plan(n, k - 1) + Piece(n, k - 1)
  }

  function Schedule(n: nat): seq<Action> {
    Plan(n, PIECES)
  }

  // ---------------------------------------------------------------- composition

  lemma OneMore(w: World, t: Tree<Component>, actions: seq<Action>, next: Action)
    ensures var r := Run(w, t, actions);
            Run(w, t, actions + [next]) ==
            if !r.ok then r else Outcome(w.Succeeds(next), Act(w, r.scope, next), r.taken + [next])
  {
    assert (actions + [next])[..|actions|] == actions;
  }

  lemma {:induction false} FailedAlready(w: World, t: Tree<Component>, a: seq<Action>, b: seq<Action>)
    requires !Run(w, t, a).ok
    ensures Run(w, t, a + b) == Run(w, t, a)
  {
    if b == [] {
      assert a + b == a;
    } else {
      FailedAlready(w, t, a, b[..|b| - 1]);
      OneMore(w, t, a + b[..|b| - 1], b[|b| - 1]);
      assert a + b[..|b| - 1] + [b[|b| - 1]] == a + b;
    }
  }

  lemma {:induction false} TakenFirst(w: World, t: Tree<Component>, actions: seq<Action>)
    ensures var r := Run(w, t, actions);
            r.taken <= actions && (r.ok ==> r.taken == actions)
  {
    if actions != [] {
      var n := |actions| - 1;
      TakenFirst(w, t, actions[..n]);
      assert actions[..n] + [actions[n]] == actions;
    }
  }

  /** The steps that were taken and are not the last have succeeded. */
  predicate SuccessBut(w: World, taken: seq<Action>, ok: bool) {
    if taken == [] then ok
    else
      var n := |taken| - 1;
      w.Succeeds(taken[n]) == ok && (n > 0 ==> SuccessBut(w, taken[..n], true))
  }

  lemma {:induction false} TakenSucceeded(w: World, t: Tree<Component>, actions: seq<Action>)
    ensures var r := Run(w, t, actions); SuccessBut(w, r.taken, r.ok)
  {
    if actions != [] {
      var n := |actions| - 1;
      TakenSucceeded(w, t, actions[..n]);
      var before := Run(w, t, actions[..n]);
      assert (before.taken + [actions[n]])[..|before.taken|] == before.taken;
    }
  }

  lemma {:induction false} SuccessMeaning(w: World, taken: seq<Action>, ok: bool, k: nat)
    requires SuccessBut(w, taken, ok) && k < |taken|
    ensures w.Succeeds(taken[k]) == (ok || k < |taken| - 1)
  {
    if k < |taken| - 1 { SuccessMeaning(w, taken[..|taken| - 1], true, k); }
  }

  /** The steps taken are a beginning of the list, and the whole list after a success; all but the
      last succeeded, and the last did exactly when the run did. */
  lemma RunMeaning(w: World, t: Tree<Component>, actions: seq<Action>)
    ensures var r := Run(w, t, actions);
            && r.taken <= actions && (r.ok ==> r.taken == actions) && (!r.ok ==> r.taken != [])
            && forall k :: 0 <= k < |r.taken| ==> w.Succeeds(r.taken[k]) == (r.ok || k < |r.taken| - 1)
  {
    var r := Run(w, t, actions);
    TakenFirst(w, t, actions);
    TakenSucceeded(w, t, actions);
    forall k | 0 <= k < |r.taken| ensures w.Succeeds(r.taken[k]) == (r.ok || k < |r.taken| - 1) {
      SuccessMeaning(w, r.taken, r.ok, k);
    }
  }

  lemma MoveOne<A>(a: seq<A>, b: seq<A>, k: nat)
    requires k < |b|
    ensures a + [b[k]] + b[k + 1..] == a + b[k..]
  {
  }

  const NOTHING: Tree<Component> := Tree(true, [])

  /** `run` is what Run says of a box that starts with nothing. The methods speak of it as a value,
      so that their proofs do not unfold the whole schedule. */
  ghost predicate RunsAs(run: seq<Action> -> Outcome, w: World) {
    forall actions {:trigger Run(w, NOTHING, actions)} :: run(actions) == Run(w, NOTHING, actions)
  }

  class Box {
    const scope: Scope<Component>
    const world: World
    const serviceCount: nat
    ghost const run: seq<Action> -> Outcome
    /** The steps taken so far. */
    var taken: seq<Action>

    constructor (world: World, serviceCount: nat)
      ensures this.world == world && this.serviceCount == serviceCount
      ensures Valid() && fresh(scope.Repr)
      ensures taken == [] && scope.Value() == Tree(true, [])
    {
      this.world, this.serviceCount, taken := world, serviceCount, [];
      run := actions => Run(world, NOTHING, actions);
      scope := new Scope<Component>();
    }

    ghost predicate Valid()
      reads this, scope, scope.Repr
    {
      scope.Valid() && this !in scope.Repr && RunsAs(run, world)
    }

    /** The steps of `done` are what has been run so far. */
    ghost predicate HasDone(done: seq<Action>, ok: bool)
      requires Valid()
      reads this, scope, scope.Repr
    {
      run(done) == Outcome(ok, scope.Value(), taken)
    }

    /** scope.Start for a component at a stage. */
    method StartComponent(c: Component, stage: Stage, ghost done: seq<Action>) returns (ok: bool)
      requires Valid() && scope.open && HasDone(done, true)
      modifies this`taken, scope.Repr
      ensures Valid() && fresh(scope.Repr - old(scope.Repr)) && scope.open
      ensures HasDone(done + [Invoke(c, stage)], ok)
    {
      OneMore(world, NOTHING, done, Invoke(c, stage));
      taken := taken + [Invoke(c, stage)];
      ok := scope.Start(c, world.startup(c, stage));
    }

    /** Start of something that is no component, with a hook of the box's scope. */
    method StartSimple(a: Action, outcome: Simple, hook: int, ghost done: seq<Action>)
      returns (ok: bool)
      requires Valid() && scope.open && HasDone(done, true)
      requires world.Succeeds(a) == (outcome != Fails)
      requires Act(world, scope.Value(), a) == WithSimple(scope.Value(), outcome, hook)
      modifies this`taken, scope.Repr
      ensures Valid() && fresh(scope.Repr - old(scope.Repr)) && scope.open
      ensures HasDone(done + [a], ok)
    {
      OneMore(world, NOTHING, done, a);
      taken := taken + [a];
      if outcome == Fails {
        return false;
      }
      if outcome == Runs {
        scope.Add(hook);
      }
      return true;
    }

    /** startComponents; startInternalServices is the same loop over the services. */
    method StartComponents(stage: Stage, components: seq<Component>, ghost done: seq<Action>)
      returns (ok: bool)
      requires Valid() && scope.open && HasDone(done, true)
      modifies this`taken, scope.Repr
      ensures Valid() && fresh(scope.Repr - old(scope.Repr)) && scope.open
      ensures HasDone(done + Each(stage, components), ok)
    {
      ghost var all, sofar := Each(stage, components), done;
      for k := 0 to |components|
        invariant Valid() && fresh(scope.Repr - old(scope.Repr)) && scope.open
        invariant HasDone(sofar, true)
        invariant sofar + all[k..] == done + all
      {
        ok := StartComponent(components[k], stage, sofar);
        MoveOne(sofar, all, k);
        sofar := sofar + [all[k]];
        if !ok {
          FailedAlready(world, NOTHING, sofar, all[k + 1..]);
          return false;
        }
      }
      assert sofar + [] == sofar;
      return true;
    }

    /** The k-th piece of a plan of m pieces, when it is a list of components. */
    method StartPiece(stage: Stage, components: seq<Component>, ghost k: nat, ghost m: nat)
      returns (ok: bool)
      requires Valid() && scope.open && HasDone(Plan(serviceCount, k), true)
      requires k < m && Piece(serviceCount, k) == Each(stage, components)
      modifies this`taken, scope.Repr
      ensures Valid() && fresh(scope.Repr - old(scope.Repr)) && scope.open
      ensures HasDone(Plan(serviceCount, if ok then k + 1 else m), ok)
    {
      ok := StartComponents(stage, components, Plan(serviceCount, k));
      if !ok {
        PlanFailed(world, NOTHING, serviceCount, k + 1, m);
      }
    }

    /** The same for a piece that is one simple step. */
    method StartSimplePiece(a: Action, outcome: Simple, hook: int, ghost k: nat, ghost m: nat)
      returns (ok: bool)
      requires Valid() && scope.open && HasDone(Plan(serviceCount, k), true)
      requires k < m && Piece(serviceCount, k) == [a]
      requires world.Succeeds(a) == (outcome != Fails)
      requires Act(world, scope.Value(), a) == WithSimple(scope.Value(), outcome, hook)
      modifies this`taken, scope.Repr
      ensures Valid() && fresh(scope.Repr - old(scope.Repr)) && scope.open
      ensures HasDone(Plan(serviceCount, if ok then k + 1 else m), ok)
    {
      ok := StartSimple(a, outcome, hook, Plan(serviceCount, k));
      if !ok {
        PlanFailed(world, NOTHING, serviceCount, k + 1, m);
      }
    }

    /** preStart: the logger and the debug server. */
    method StartLogging() returns (ok: bool)
      requires Valid() && scope.open && HasDone(Plan(serviceCount, 0), true)
      modifies this`taken, scope.Repr
      ensures Valid() && fresh(scope.Repr - old(scope.Repr)) && scope.open
      ensures HasDone(Plan(serviceCount, if ok then 2 else PRE_START), ok)
    {
      ok := StartSimplePiece(StartLogger, world.logger, LOGGER, 0, PRE_START);
      if !ok { return; }
      ok := StartSimplePiece(StartDebugServer, world.debugServer, DEBUG_SERVER, 1, PRE_START);
    }

    /** preStart: the first stage. */
    method InitializeAll() returns (ok: bool)
      requires Valid() && scope.open && HasDone(Plan(serviceCount, 2), true)
      modifies this`taken, scope.Repr
      ensures Valid() && fresh(scope.Repr - old(scope.Repr)) && scope.open
      ensures HasDone(Plan(serviceCount, if ok then 4 else PRE_START), ok)
    {
      ok := StartPiece(Initialize, Services(serviceCount), 2, PRE_START);
      if !ok { return; }
      ok := StartPiece(Initialize, INITIALIZED, 3, PRE_START);
    }

    /** preStart: the first five pieces of the schedule. */
    method PreStart() returns (ok: bool)
      requires Valid() && scope.open && HasDone(Plan(serviceCount, 0), true)
      modifies this`taken, scope.Repr
      ensures Valid() && fresh(scope.Repr - old(scope.Repr)) && scope.open
      ensures HasDone(Plan(serviceCount, PRE_START), ok)
    {
      ok := StartLogging();
      if !ok { return; }
      ok := InitializeAll();
      if !ok { return; }
      ok := StartPiece(Start, STARTED_FIRST, 4, PRE_START);
    }

    /** start: the rest of the second stage. */
    method StartServices() returns (ok: bool)
      requires Valid() && scope.open && HasDone(Plan(serviceCount, 5), true)
      modifies this`taken, scope.Repr
      ensures Valid() && fresh(scope.Repr - old(scope.Repr)) && scope.open
      ensures HasDone(Plan(serviceCount, if ok then 8 else PIECES), ok)
    {
      ok := StartPiece(Start, Services(serviceCount), 5, PIECES);
      if !ok { return; }
      ok := StartSimplePiece(StartNtp, world.ntp, NTP, 6, PIECES);
      if !ok { return; }
      ok := StartPiece(Start, STARTED_LAST, 7, PIECES);
    }

    /** start: the third stage. */
    method PostStartAll() returns (ok: bool)
      requires Valid() && scope.open && HasDone(Plan(serviceCount, 8), true)
      modifies this`taken, scope.Repr
      ensures Valid() && fresh(scope.Repr - old(scope.Repr)) && scope.open
      ensures HasDone(Plan(serviceCount, if ok then 10 else PIECES), ok)
    {
      ok := StartPiece(PostStart, POST_STARTED, 8, PIECES);
      if !ok { return; }
      ok := StartPiece(PostStart, Services(serviceCount), 9, PIECES);
    }

    /** start: the last stage. */
    method FinishAll() returns (ok: bool)
      requires Valid() && scope.open && HasDone(Plan(serviceCount, 10), true)
      modifies this`taken, scope.Repr
      ensures Valid() && fresh(scope.Repr - old(scope.Repr)) && scope.open
      ensures HasDone(Plan(serviceCount, PIECES), ok)
    {
      ok := StartPiece(Started, FINISHED, 10, PIECES);
      if !ok { return; }
      ok := StartPiece(Started, Services(serviceCount), 11, PIECES);
    }

    /** start: the whole schedule. */
    method StartAll() returns (ok: bool)
      requires Valid() && scope.open && scope.Value() == NOTHING && taken == []
      modifies this`taken, scope.Repr
      ensures Valid() && fresh(scope.Repr - old(scope.Repr)) && scope.open
      ensures HasDone(Schedule(serviceCount), ok)
    {
      assert Plan(serviceCount, 0) == [] && Run(world, NOTHING, []) == Outcome(true, NOTHING, []);
      ok := PreStart();
      if !ok {
        PlanFailed(world, NOTHING, serviceCount, PRE_START, PIECES);
        return;
      }
      ok := StartServices();
      if !ok { return; }
      ok := PostStartAll();
      if !ok { return; }
      ok := FinishAll();
    }

    /** Box.Start on a new box: the schedule is run up to its first failing step, and then
        everything is closed again. */
    method StartBox() returns (ok: bool, log: seq<Event<Component>>)
      requires Valid() && taken == [] && scope.Value() == Tree(true, [])
      modifies this`taken, scope.Repr
      ensures Valid()
      ensures var r := Run(world, NOTHING, Schedule(serviceCount));
              && ok == r.ok && taken == r.taken
              && (ok ==> scope.Value() == r.scope && log == [])
              && (!ok ==> scope.Value() == Tree(false, []) && log == Unwind(r.scope))
    {
      log := [];
      ok := StartAll();
      if !ok {
        log := scope.Close();
      }
    }
  }

  lemma {:induction false} PlanGrows(n: nat, k: nat, m: nat)
    requires k <= m
    ensures Plan(n, k) <= Plan(n, m)
  {
    if k < m { PlanGrows(n, k, m - 1); }
  }

  lemma PlanFailed(w: World, t: Tree<Component>, n: nat, k: nat, m: nat)
    requires k <= m && !Run(w, t, Plan(n, k)).ok
    ensures Run(w, t, Plan(n, m)) == Run(w, t, Plan(n, k))
  {
    PlanGrows(n, k, m);
    FailedAlready(w, t, Plan(n, k), Plan(n, m)[|Plan(n, k)|..]);
    assert Plan(n, k) + Plan(n, m)[|Plan(n, k)|..] == Plan(n, m);
  }
}
