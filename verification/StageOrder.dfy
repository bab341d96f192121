/** The order in which a start of the box takes the managers through each stage. */
module StageOrder {
  import opened Common
  import opened Scope
  import opened BoxStart
  import opened StartOrder

  /** The components that a list of steps takes through a stage, in order. */
  function ComponentsAt(stage: Stage, actions: seq<Action>): seq<Component> {
    if actions == [] then []
    else
      var before, last := ComponentsAt(stage, actions[..|actions| - 1]), actions[|actions| - 1];
      if last.Invoke? && last.stage == stage then before + [last.c] else before
  }

  lemma {:induction false} ComponentsAtBoth(stage: Stage, a: seq<Action>, b: seq<Action>)
    ensures ComponentsAt(stage, a + b) == ComponentsAt(stage, a) + ComponentsAt(stage, b)
  {
    if b == [] {
      assert a + b == a;
    } else {
      assert (a + b)[..|a + b| - 1] == a + b[..|b| - 1];
      ComponentsAtBoth(stage, a, b[..|b| - 1]);
    }
  }

  lemma {:induction false} ComponentsOfEach(stage: Stage, of: Stage, components: seq<Component>)
    ensures ComponentsAt(stage, Each(of, components)) == if of == stage then components else []
  {
    if components != [] {
      var n := |components| - 1;
      ComponentsOfEach(stage, of, components[..n]);
      assert Each(of, components)[..n] == Each(of, components[..n]);
      assert components == components[..n] + [components[n]];
    }
  }

  lemma NoComponents(stage: Stage, a: Action)
    requires !a.Invoke?
    ensures ComponentsAt(stage, [a]) == []
  {
    assert [a][..0] == [];
  }

  /** The components of a piece of the schedule. */
  function Managers(n: nat, k: nat): seq<Component> {
    match k
    case 3 => INITIALIZED
    case 4 => STARTED_FIRST
    case 7 => STARTED_LAST
    case 8 => POST_STARTED
    case 10 => FINISHED
    case _ => if k == 2 || k == 5 || k == 9 || k == 11 then Services(n) else []
  }

  lemma PieceComponents(stage: Stage, n: nat, k: nat)
    requires k < PIECES
    ensures ComponentsAt(stage, Piece(n, k)) == if PieceStage(k) == stage then Managers(n, k) else []
  {
    if k == 0 || k == 1 || k == 6 {
      NoComponents(stage, Piece(n, k)[0]);
    } else {
      ComponentsOfEach(stage, PieceStage(k), Managers(n, k));
    }
  }

  /** What the first k pieces take through a stage. */
  function SoFar(stage: Stage, n: nat, k: nat): seq<Component> {
    if k == 0 then []
    else SoFar(stage, n, k - 1) + Shown(stage, n, k - 1)
  }

  function Shown(stage: Stage, n: nat, k: nat): seq<Component> {
    if PieceStage(k) == stage then Managers(n, k) else []
  }

  lemma Extend(stage: Stage, a: seq<Action>, b: seq<Action>, before: seq<Component>, after: seq<Component>)
    requires ComponentsAt(stage, a) == before && before + ComponentsAt(stage, b) == after
    ensures ComponentsAt(stage, a + b) == after
  {
    ComponentsAtBoth(stage, a, b);
  }

  lemma OneMoreShown(stage: Stage, n: nat, k: nat)
    requires k < PIECES
    ensures SoFar(stage, n, k) + ComponentsAt(stage, Piece(n, k)) == SoFar(stage, n, k + 1)
  {
    PieceComponents(stage, n, k);
  }

  lemma {:induction false} PlanSoFar(stage: Stage, n: nat, k: nat)
    requires k <= PIECES
    ensures ComponentsAt(stage, Plan(n, k)) == SoFar(stage, n, k)
  {
    if k > 0 {
      var m := k - 1;
      PlanSoFar(stage, n, m);
      OneMoreShown(stage, n, m);
      var piece := Piece(n, m);
      Extend(stage, Plan(n, m), piece, SoFar(stage, n, m), SoFar(stage, n, k));
      assert Plan(n, k) == Plan(n, m) + piece;
    } else {
      assert Plan(n, 0) == [];
    }
  }

  function FirstPiece(stage: Stage): nat {
    match stage
    case Initialize => 0
    case Start => 4
    case PostStart => 8
    case Started => 10
  }

  function EndPiece(stage: Stage): nat {
    match stage
    case Initialize => 4
    case Start => 8
    case PostStart => 10
    case Started => 12
  }

  lemma {:induction false} NothingBefore(stage: Stage, n: nat, k: nat)
    requires k <= FirstPiece(stage)
    ensures SoFar(stage, n, k) == []
  {
    if k > 0 {
      NothingBefore(stage, n, k - 1);
    }
  }

  lemma {:induction false} NothingAfter(stage: Stage, n: nat, k: nat)
    requires EndPiece(stage) <= k <= PIECES
    ensures SoFar(stage, n, k) == SoFar(stage, n, EndPiece(stage))
  {
    if k > EndPiece(stage) {
      NothingAfter(stage, n, k - 1);
    }
  }

  lemma InitializePieces(n: nat)
    ensures SoFar(Initialize, n, 4) == Services(n) + INITIALIZED
  {
    assert SoFar(Initialize, n, 1) == [];
    assert SoFar(Initialize, n, 2) == [];
    assert SoFar(Initialize, n, 3) == Services(n);
  }

  lemma StartPieces(n: nat)
    ensures SoFar(Start, n, 6) == STARTED_FIRST + Services(n)
    ensures SoFar(Start, n, 8) == STARTED_FIRST + Services(n) + STARTED_LAST
  {
    NothingBefore(Start, n, 4);
    assert SoFar(Start, n, 5) == STARTED_FIRST;
    assert SoFar(Start, n, 7) == SoFar(Start, n, 6);
  }

  lemma PostStartPieces(n: nat)
    ensures SoFar(PostStart, n, 10) == POST_STARTED + Services(n)
  {
    NothingBefore(PostStart, n, 8);
    assert SoFar(PostStart, n, 9) == POST_STARTED;
  }

  lemma StartedPieces(n: nat)
    ensures SoFar(Started, n, 12) == FINISHED + Services(n)
  {
    NothingBefore(Started, n, 10);
    assert SoFar(Started, n, 11) == FINISHED;
  }

  /** The internal services come before all managers at the first stage, between those that carry
      connections and those that others reach at the second, and last at the third and fourth. */
  lemma StagesAreOrdered(n: nat, stage: Stage)
    ensures ComponentsAt(stage, Schedule(n)) ==
            match stage
            case Initialize =>
              Services(n) + [HttpClient, Network, DnsTransport, DnsRouter, Connection, Router, Outbound, Endpoint,
                             CertificateProvider, Inbound, Service]
            case Start =>
              [Outbound, DnsTransport, Network, Connection, HttpClient, Router, DnsRouter] + Services(n)
              + [Endpoint, CertificateProvider, Inbound, Service]
            case PostStart =>
              [Outbound, Network, DnsTransport, DnsRouter, Connection, Router, Endpoint, CertificateProvider,
               Inbound, Service] + Services(n)
            case Started =>
              [Network, DnsTransport, DnsRouter, Connection, Router, Outbound, Endpoint, CertificateProvider,
               Inbound, Service] + Services(n)
  {
    PlanSoFar(stage, n, PIECES);
    NothingAfter(stage, n, PIECES);
    match stage
    case Initialize => InitializePieces(n);
    case Start => StartPieces(n);
    case PostStart => PostStartPieces(n);
    case Started => StartedPieces(n);
  }

  /** Steps that start neither the logger nor the debug server. */
  predicate NoLogging(actions: seq<Action>) {
    forall k :: 0 <= k < |actions| ==> actions[k] != StartLogger && actions[k] != StartDebugServer
  }

  lemma PlanBeginning(n: nat)
    ensures Plan(n, 2) == [StartLogger, StartDebugServer]
  {
    assert Plan(n, 0) == [];
    assert Plan(n, 1) == [StartLogger];
    assert Plan(n, 2) == Plan(n, 1) + Piece(n, 1);
  }

  lemma OnePieceMore(n: nat, k: nat)
    requires 2 <= k < PIECES
    ensures Plan(n, k + 1) == Plan(n, k) + Piece(n, k) && NoLogging(Piece(n, k))
  {
  }

  lemma {:induction false} PlanGrows(n: nat, k: nat, m: nat) returns (rest: seq<Action>)
    requires 2 <= k <= m <= PIECES
    ensures Plan(n, m) == Plan(n, k) + rest && NoLogging(rest)
  {
    if k == m {
      rest := [];
    } else {
      rest := PlanGrows(n, k, m - 1);
      OnePieceMore(n, m - 1);
      Associate(Plan(n, k), rest, Piece(n, m - 1));
      rest := rest + Piece(n, m - 1);
    }
  }

  /** The logger starts first and the debug server second. The clock starts once the internal
      services have started, before the managers that others reach do. */
  lemma SimpleStartsInPlace(n: nat) returns (afterLogs: seq<Action>, afterClock: seq<Action>)
    ensures Schedule(n) == [StartLogger, StartDebugServer] + afterLogs && NoLogging(afterLogs)
    ensures Schedule(n) == Plan(n, 6) + [StartNtp] + afterClock
    ensures ComponentsAt(Start, Plan(n, 6)) ==
            [Outbound, DnsTransport, Network, Connection, HttpClient, Router, DnsRouter] + Services(n)
  {
    PlanBeginning(n);
    afterLogs := PlanGrows(n, 2, PIECES);
    afterClock := PlanGrows(n, 7, PIECES);
    OnePieceMore(n, 6);
    PlanSoFar(Start, n, 6);
    StartPieces(n);
  }

  lemma {:induction false} OkIff(w: World, t: Tree<Component>, actions: seq<Action>)
    ensures Run(w, t, actions).ok <==> forall k :: 0 <= k < |actions| ==> w.Succeeds(actions[k])
  {
    if actions != [] {
      var n := |actions| - 1;
      OkIff(w, t, actions[..n]);
      assert forall k :: 0 <= k < n ==> actions[..n][k] == actions[k];
    }
  }

  lemma SucceedsIff(w: World, a: Action)
    ensures a == StartLogger ==> (w.Succeeds(a) <==> w.logger != Fails)
    ensures a == StartDebugServer ==> (w.Succeeds(a) <==> w.debugServer != Fails)
    ensures a == StartNtp ==> (w.Succeeds(a) <==> w.ntp != Fails)
    ensures a.Invoke? ==> (w.Succeeds(a) <==> w.startup(a.c, a.stage).ok)
  {
  }

  lemma AllPresent(n: nat)
    ensures StartLogger in Schedule(n) && StartDebugServer in Schedule(n) && StartNtp in Schedule(n)
  {
    var afterLogs, afterClock := SimpleStartsInPlace(n);
    var logs := [StartLogger, StartDebugServer];
    assert logs[0] in logs && logs[1] in logs;
    assert (Plan(n, 6) + [StartNtp])[|Plan(n, 6)|] == StartNtp;
  }

  /** A start succeeds exactly if neither the logger nor the debug server nor the clock fails, nor
      any component at any of its stages. */
  lemma StartSucceedsIff(w: World, n: nat)
    ensures Run(w, NOTHING, Schedule(n)).ok <==>
              && w.logger != Fails && w.debugServer != Fails && w.ntp != Fails
              && forall c, stage :: Invoke(c, stage) in Schedule(n) ==> w.startup(c, stage).ok
  {
    var s := Schedule(n);
    OkIff(w, NOTHING, s);
    AllPresent(n);
    SucceedsIff(w, StartLogger);
    SucceedsIff(w, StartDebugServer);
    SucceedsIff(w, StartNtp);
    forall c, stage ensures w.Succeeds(Invoke(c, stage)) <==> w.startup(c, stage).ok {
      SucceedsIff(w, Invoke(c, stage));
    }
    if forall k :: 0 <= k < |s| ==> w.Succeeds(s[k]) {
      forall a | a in s ensures w.Succeeds(a) {
        var k :| 0 <= k < |s| && s[k] == a;
      }
    } else {
      var k :| 0 <= k < |s| && !w.Succeeds(s[k]);
      SucceedsIff(w, s[k]);
      assert s[k] in s;
    }
  }
}
