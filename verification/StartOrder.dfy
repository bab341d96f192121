/** What a staged start leaves behind: which component has seen which stage, and in which
    order a failed start closes what it had started. */
module StartOrder {
  import opened Common
  import opened Scope
  import opened BoxStart

  function Reverse<A>(s: seq<A>): seq<A> {
    if s == [] then [] else [s[|s| - 1]] + Reverse(s[..|s| - 1])
  }

  /** The components whose closing a log tells, in order. */
  function ClosedIn<C>(log: seq<Event<C>>): seq<C> {
    if log == [] then []
    else (if log[0].Closed? then [log[0].component] else []) + ClosedIn(log[1..])
  }

  /** The components a list of steps invokes, each at its first invocation. */
  function Invoked(actions: seq<Action>): seq<Component> {
    if actions == [] then []
    else
      var before, last := Invoked(actions[..|actions| - 1]), actions[|actions| - 1];
      if last.Invoke? && last.c !in before then before + [last.c] else before
  }

  /** The stages at which a list of steps invokes a component, in order. */
  function StagesOf(c: Component, actions: seq<Action>): seq<Stage> {
    if actions == [] then []
    else
      var before, last := StagesOf(c, actions[..|actions| - 1]), actions[|actions| - 1];
      if last.Invoke? && last.c == c then before + [last.stage] else before
  }

  ghost predicate NoRepeats<A(!new)>(s: seq<A>) {
    forall i, j :: 0 <= i < j < |s| ==> s[i] != s[j]
  }

  /** The position of a component's first invocation, or the number of steps. */
  function FirstAt(actions: seq<Action>, c: Component): nat {
    if actions == [] then 0
    else
      var n := |actions| - 1;
      var before := FirstAt(actions[..n], c);
      if before < n || (actions[n].Invoke? && actions[n].c == c) then before else n + 1
  }

  lemma {:induction false} FirstAtMeaning(actions: seq<Action>, c: Component)
    ensures var k := FirstAt(actions, c);
            && k <= |actions|
            && (k < |actions| ==> actions[k].Invoke? && actions[k].c == c)
            && forall m :: 0 <= m < k && actions[m].Invoke? ==> actions[m].c != c
  {
    if actions != [] { FirstAtMeaning(actions[..|actions| - 1], c); }
  }

  lemma {:induction false} InvokedIff(actions: seq<Action>, c: Component)
    ensures FirstAt(actions, c) <= |actions|
    ensures c in Invoked(actions) <==> FirstAt(actions, c) < |actions|
  {
    if actions != [] { InvokedIff(actions[..|actions| - 1], c); }
  }

  /** Invoked lists every invoked component once, in the order of the first invocations. */
  lemma {:induction false} InvokedInOrder(actions: seq<Action>)
    ensures NoRepeats(Invoked(actions))
    ensures forall i, j :: 0 <= i < j < |Invoked(actions)| ==>
              FirstAt(actions, Invoked(actions)[i]) < FirstAt(actions, Invoked(actions)[j])
  {
    if actions != [] {
      var n := |actions| - 1;
      InvokedInOrder(actions[..n]);
      var list, before := Invoked(actions), Invoked(actions[..n]);
      forall i | 0 <= i < |before| ensures FirstAt(actions, before[i]) == FirstAt(actions[..n], before[i]) < n {
        InvokedIff(actions[..n], before[i]);
      }
      if list != before {
        InvokedIff(actions[..n], actions[n].c);
        assert FirstAt(actions, list[|before|]) == n;
      }
    }
  }

  // ---------------------------------------------------------------- closing

  /** The components with a child scope, in order of registration. */
  function Children<C>(cleanups: seq<Entry<C>>): seq<C> {
    if cleanups == [] then []
    else
      var before, last := Children(cleanups[..|cleanups| - 1]), cleanups[|cleanups| - 1];
      if last.ChildEntry? then before + [last.component] else before
  }

  /** Components register hooks in their scopes, and no further scopes. */
  ghost predicate Flat<C>(t: Tree<C>) {
    forall k, m :: 0 <= k < |t.cleanups| && t.cleanups[k].ChildEntry? && 0 <= m < |t.cleanups[k].sub.cleanups|
      ==> t.cleanups[k].sub.cleanups[m].HookEntry?
  }

  lemma {:induction false} ClosedInBoth<C>(a: seq<Event<C>>, b: seq<Event<C>>)
    ensures ClosedIn(a + b) == ClosedIn(a) + ClosedIn(b)
  {
    if a == [] {
      assert a + b == b;
    } else {
      ClosedInBoth(a[1..], b);
      assert (a + b)[0] == a[0] && (a + b)[1..] == a[1..] + b;
      var first := if a[0].Closed? then [a[0].component] else [];
      Associate(first, ClosedIn(a[1..]), ClosedIn(b));
    }
  }

  lemma {:induction false} HooksCloseNothing<C>(t: Tree<C>, n: nat)
    requires n <= |t.cleanups| && forall m :: 0 <= m < |t.cleanups| ==> t.cleanups[m].HookEntry?
    ensures ClosedIn(UnwindFirst(t, n)) == []
  {
    if n > 0 {
      HooksCloseNothing(t, n - 1);
      ClosedInBoth(UnwindEntry(t.cleanups[n - 1]), UnwindFirst(t, n - 1));
    }
  }

  /** Closing closes the child scopes in reverse order of registration. */
  lemma {:induction false} UnwindReverses<C>(t: Tree<C>, n: nat)
    requires Flat(t) && n <= |t.cleanups|
    ensures ClosedIn(UnwindFirst(t, n)) == Reverse(Children(t.cleanups[..n]))
  {
    if n > 0 {
      UnwindReverses(t, n - 1);
      var last := t.cleanups[n - 1];
      assert t.cleanups[..n][..n - 1] == t.cleanups[..n - 1];
      ClosedInBoth(UnwindEntry(last), UnwindFirst(t, n - 1));
      if last.ChildEntry? {
        HooksCloseNothing(last.sub, |last.sub.cleanups|);
        ClosedInBoth(Unwind(last.sub), [Closed(last.component)]);
        var before := Children(t.cleanups[..n - 1]);
        assert (before + [last.component])[..|before|] == before;
      }
    }
  }

  lemma {:induction false} ChildIsListed<C(!new)>(cleanups: seq<Entry<C>>, k: nat)
    requires k < |cleanups| && cleanups[k].ChildEntry?
    ensures cleanups[k].component in Children(cleanups)
  {
    var n := |cleanups| - 1;
    if k < n { ChildIsListed(cleanups[..n], k); }
  }

  lemma {:induction false} ListedIsChild<C(!new)>(cleanups: seq<Entry<C>>, c: C) returns (k: nat)
    requires c in Children(cleanups)
    ensures k < |cleanups| && cleanups[k].ChildEntry? && cleanups[k].component == c
  {
    var n := |cleanups| - 1;
    if cleanups[n].ChildEntry? && cleanups[n].component == c {
      k := n;
    } else {
      k := ListedIsChild(cleanups[..n], c);
    }
  }

  lemma FoundIffChild<C(!new)>(cleanups: seq<Entry<C>>, c: C)
    ensures FindChild(cleanups, c) < |cleanups| <==> c in Children(cleanups)
  {
    var k := FindChild(cleanups, c);
    if k < |cleanups| { ChildIsListed(cleanups, k); }
    if c in Children(cleanups) {
      var m := ListedIsChild(cleanups, c);
      assert m >= k;
    }
  }

  lemma {:induction false} ReplaceKeepsChildren<C>(cleanups: seq<Entry<C>>, k: nat, e: Entry<C>)
    requires k < |cleanups| && cleanups[k].ChildEntry? && e.ChildEntry? && e.component == cleanups[k].component
    ensures Children(cleanups[k := e]) == Children(cleanups)
  {
    var n := |cleanups| - 1;
    if k < n {
      assert cleanups[k := e][..n] == cleanups[..n][k := e];
      ReplaceKeepsChildren(cleanups[..n], k, e);
    } else {
      assert cleanups[k := e][..n] == cleanups[..n];
    }
  }

  lemma WithStartRegisters(t: Tree<Component>, c: Component, hooks: seq<int>)
    requires Flat(t)
    ensures var u := WithStart(t, c, hooks);
            && Flat(u)
            && Children(u.cleanups) ==
               if c !in Children(t.cleanups) then Children(t.cleanups) + [c] else Children(t.cleanups)
  {
    var u := WithStart(t, c, hooks);
    FoundIffChild(t.cleanups, c);
    var k := FindChild(t.cleanups, c);
    if k < |t.cleanups| {
      ReplaceKeepsChildren(t.cleanups, k, u.cleanups[k]);
    } else {
      assert u.cleanups[..|t.cleanups|] == t.cleanups;
    }
  }

  /** One step registers a child scope exactly when it is a component's first invocation. */
  lemma ActRegisters(w: World, t: Tree<Component>, a: Action)
    requires Flat(t)
    ensures var u := Act(w, t, a);
            && Flat(u)
            && Children(u.cleanups) ==
               if a.Invoke? && a.c !in Children(t.cleanups) then Children(t.cleanups) + [a.c] else Children(t.cleanups)
  {
    if a.Invoke? {
      WithStartRegisters(t, a.c, w.startup(a.c, a.stage).hooks);
    } else if Act(w, t, a) != t {
      assert Act(w, t, a).cleanups[..|t.cleanups|] == t.cleanups;
    }
  }

  lemma {:induction false} RunRegisters(w: World, actions: seq<Action>)
    ensures var r := Run(w, NOTHING, actions);
            Flat(r.scope) && Children(r.scope.cleanups) == Invoked(r.taken)
  {
    if actions != [] {
      var n := |actions| - 1;
      RunRegisters(w, actions[..n]);
      var r := Run(w, NOTHING, actions[..n]);
      if r.ok {
        ActRegisters(w, r.scope, actions[n]);
        assert (r.taken + [actions[n]])[..|r.taken|] == r.taken;
      }
    }
  }

  lemma ReverseMembers<A(!new)>(s: seq<A>)
    ensures forall a :: a in Reverse(s) <==> a in s
    decreases |s|
  {
    if s != [] {
      ReverseMembers(s[..|s| - 1]);
      assert s == s[..|s| - 1] + [s[|s| - 1]];
    }
  }

  /** A failed start closes exactly the components it had invoked, the one that failed among
      them, each once and in reverse order of first invocation. */
  lemma FailedStartClosesTheStarted(w: World, n: nat)
    requires !Run(w, NOTHING, Schedule(n)).ok
    ensures var r := Run(w, NOTHING, Schedule(n));
            && r.taken != []
            && ClosedIn(Unwind(r.scope)) == Reverse(Invoked(r.taken)) && NoRepeats(Invoked(r.taken))
            && (forall c :: c in ClosedIn(Unwind(r.scope)) <==> FirstAt(r.taken, c) < |r.taken|)
            && var last := r.taken[|r.taken| - 1];
               !w.Succeeds(last) && (last.Invoke? ==> last.c in ClosedIn(Unwind(r.scope)))
  {
    var r := Run(w, NOTHING, Schedule(n));
    RunMeaning(w, NOTHING, Schedule(n));
    RunRegisters(w, Schedule(n));
    UnwindReverses(r.scope, |r.scope.cleanups|);
    assert r.scope.cleanups[..|r.scope.cleanups|] == r.scope.cleanups;
    InvokedInOrder(r.taken);
    ReverseMembers(Invoked(r.taken));
    forall c ensures c in ClosedIn(Unwind(r.scope)) <==> FirstAt(r.taken, c) < |r.taken| {
      InvokedIff(r.taken, c);
    }
  }

  // ---------------------------------------------------------------- the logger

  lemma ActKeepsFirst(w: World, t: Tree<Component>, a: Action, hook: int)
    requires t.cleanups != [] && t.cleanups[0] == HookEntry(hook)
    ensures var u := Act(w, t, a);
            u.cleanups != [] && u.cleanups[0] == HookEntry(hook)
  {
    if a.Invoke? { assert FindChild(t.cleanups, a.c) > 0; }
  }

  lemma {:induction false} FirstStays(w: World, actions: seq<Action>)
    requires actions != [] && actions[0] == StartLogger && w.logger == Runs
    ensures var r := Run(w, NOTHING, actions);
            r.scope.cleanups != [] && r.scope.cleanups[0] == HookEntry(LOGGER)
  {
    var n := |actions| - 1;
    if n == 0 {
      assert actions[..0] == [];
    } else {
      FirstStays(w, actions[..n]);
      ActKeepsFirst(w, Run(w, NOTHING, actions[..n]).scope, actions[n], LOGGER);
    }
  }

  lemma {:induction false} FirstClosesLast<C>(t: Tree<C>, n: nat, hook: int)
    requires 0 < n <= |t.cleanups| && t.cleanups[0] == HookEntry(hook)
    ensures UnwindFirst(t, n) != [] && UnwindFirst(t, n)[|UnwindFirst(t, n)| - 1] == Ran(hook)
  {
    if n > 1 { FirstClosesLast(t, n - 1, hook); }
  }

  lemma {:induction false} PlanBegins(n: nat, k: nat)
    requires k > 0
    ensures Plan(n, k) != [] && Plan(n, k)[0] == StartLogger
  {
    if k > 1 { PlanBegins(n, k - 1); }
  }

  /** The logger closes after everything else; when it does not start, there is nothing to
      close. */
  lemma LoggerClosesLast(w: World, n: nat)
    requires w.logger != Absent
    ensures var log := Unwind(Run(w, NOTHING, Schedule(n)).scope);
            if w.logger == Runs then log != [] && log[|log| - 1] == Ran(LOGGER) else log == []
  {
    PlanBegins(n, PIECES);
    var s := Schedule(n);
    if w.logger == Runs {
      FirstStays(w, s);
      FirstClosesLast(Run(w, NOTHING, s).scope, |Run(w, NOTHING, s).scope.cleanups|, LOGGER);
    } else {
      OneMore(w, NOTHING, [], StartLogger);
      assert [] + [StartLogger] == [StartLogger];
      FailedAlready(w, NOTHING, [StartLogger], s[1..]);
      assert [StartLogger] + s[1..] == s;
    }
  }

  // ---------------------------------------------------------------- the stages

  lemma {:induction false} StagesOfBoth(c: Component, a: seq<Action>, b: seq<Action>)
    ensures StagesOf(c, a + b) == StagesOf(c, a) + StagesOf(c, b)
  {
    if b == [] {
      assert a + b == a;
    } else {
      assert (a + b)[..|a + b| - 1] == a + b[..|b| - 1];
      StagesOfBoth(c, a, b[..|b| - 1]);
    }
  }

  lemma {:induction false} StagesOfEach(c: Component, stage: Stage, components: seq<Component>)
    requires NoRepeats(components)
    ensures StagesOf(c, Each(stage, components)) == if c in components then [stage] else []
  {
    if components != [] {
      var n := |components| - 1;
      StagesOfEach(c, stage, components[..n]);
      assert Each(stage, components)[..n] == Each(stage, components[..n]);
      assert components == components[..n] + [components[n]];
    }
  }

  /** The components a piece of the schedule invokes. */
  predicate InPiece(c: Component, n: nat, k: nat) {
    match k
    case 3 => !c.Internal?
    case 4 =>
      c.Outbound? || c.DnsTransport? || c.Network? || c.Connection? || c.HttpClient? || c.Router? || c.DnsRouter?
    case 7 => c.Endpoint? || c.CertificateProvider? || c.Inbound? || c.Service?
    case 8 => !c.Internal? && !c.HttpClient?
    case 10 => !c.Internal? && !c.HttpClient?
    case _ => (k == 2 || k == 5 || k == 9 || k == 11) && c.Internal? && c.i < n
  }

  function PieceStage(k: nat): Stage {
    if k <= 3 then Initialize else if k <= 7 then Start else if k <= 9 then PostStart else Started
  }

  /** What one piece of the schedule shows a component. */
  function PieceStages(c: Component, n: nat, k: nat): seq<Stage> {
    if InPiece(c, n, k) then [PieceStage(k)] else []
  }

  /** A list of managers names each of the components of its piece once. */
  ghost predicate Lists(components: seq<Component>, k: nat) {
    NoRepeats(components) && forall c: Component {:trigger InPiece(c, 0, k)} :: c in components <==> InPiece(c, 0, k)
  }

  lemma InitializedLists()
    ensures Lists(INITIALIZED, 3)
  {
  }

  lemma StartedFirstLists()
    ensures Lists(STARTED_FIRST, 4)
  {
  }

  lemma StartedLastLists()
    ensures Lists(STARTED_LAST, 7)
  {
  }

  lemma PostStartedLists()
    ensures Lists(POST_STARTED, 8)
  {
  }

  lemma FinishedLists()
    ensures Lists(FINISHED, 10)
  {
  }

  lemma StagesOfManagers(c: Component, n: nat, k: nat, components: seq<Component>)
    requires k == 3 || k == 4 || k == 7 || k == 8 || k == 10
    requires Lists(components, k)
    ensures StagesOf(c, Each(PieceStage(k), components)) == PieceStages(c, n, k)
  {
    StagesOfEach(c, PieceStage(k), components);
    assert InPiece(c, n, k) == InPiece(c, 0, k);
  }

  lemma StagesOfServices(c: Component, n: nat, k: nat)
    requires k == 2 || k == 5 || k == 9 || k == 11
    ensures StagesOf(c, Piece(n, k)) == PieceStages(c, n, k)
  {
    var services := Services(n);
    assert Piece(n, k) == Each(PieceStage(k), services);
    StagesOfEach(c, PieceStage(k), services);
    if c.Internal? && c.i < n { assert services[c.i] == c; }
  }

  lemma StagesOfPiece(c: Component, n: nat, k: nat)
    requires k < PIECES
    ensures StagesOf(c, Piece(n, k)) == PieceStages(c, n, k)
  {
    if k == 2 || k == 5 || k == 9 || k == 11 {
      StagesOfServices(c, n, k);
    } else if k == 3 {
      InitializedLists();
      StagesOfManagers(c, n, k, INITIALIZED);
    } else if k == 4 {
      StartedFirstLists();
      StagesOfManagers(c, n, k, STARTED_FIRST);
    } else if k == 7 {
      StartedLastLists();
      StagesOfManagers(c, n, k, STARTED_LAST);
    } else if k == 8 {
      PostStartedLists();
      StagesOfManagers(c, n, k, POST_STARTED);
    } else if k == 10 {
      FinishedLists();
      StagesOfManagers(c, n, k, FINISHED);
    }
  }

  const STAGES := [Initialize, Start, PostStart, Started]

  /** How many stages the first k pieces show a component. */
  function Seen(c: Component, k: nat): (m: nat)
    ensures m <= 4
  {
    if c.HttpClient? then (if k <= 3 then 0 else if k == 4 then 1 else 2)
    else if c.Internal? then
      (if k <= 2 then 0 else if k <= 5 then 1 else if k <= 9 then 2 else if k <= 11 then 3 else 4)
    else if k <= 3 then 0
    else if k <= (if InPiece(c, 0, 7) then 7 else 4) then 1
    else if k <= 8 then 2
    else if k <= 10 then 3 else 4
  }

  /** Every piece shows a component its next stage or none. */
  lemma NextStage(c: Component, n: nat, k: nat)
    requires k < PIECES && (c.Internal? ==> c.i < n)
    ensures Seen(c, k + 1) == Seen(c, k) + if InPiece(c, n, k) then 1 else 0
    ensures InPiece(c, n, k) ==> STAGES[Seen(c, k)] == PieceStage(k)
  {
  }

  /** What the plan has shown so far is a beginning of the four stages. */
  lemma {:induction false} StagesOfPlan(c: Component, n: nat, k: nat)
    requires k <= PIECES && (c.Internal? ==> c.i < n)
    ensures StagesOf(c, Plan(n, k)) == STAGES[..Seen(c, k)]
  {
    if k > 0 {
      var m := k - 1;
      StagesOfPlan(c, n, m);
      OnePieceMore(c, n, m);
      var piece := Piece(n, m);
      Grow(c, Plan(n, m), piece, STAGES[..Seen(c, m)], STAGES[..Seen(c, k)]);
      assert Plan(n, k) == Plan(n, m) + piece;
    } else {
      assert Plan(n, 0) == [];
    }
  }

  lemma Grow(c: Component, a: seq<Action>, b: seq<Action>, before: seq<Stage>, after: seq<Stage>)
    requires StagesOf(c, a) == before && before + StagesOf(c, b) == after
    ensures StagesOf(c, a + b) == after
  {
    StagesOfBoth(c, a, b);
  }

  lemma OnePieceMore(c: Component, n: nat, k: nat)
    requires k < PIECES && (c.Internal? ==> c.i < n)
    ensures STAGES[..Seen(c, k)] + StagesOf(c, Piece(n, k)) == STAGES[..Seen(c, k + 1)]
  {
    StagesOfPiece(c, n, k);
    NextStage(c, n, k);
    TakeOneMore(STAGES, Seen(c, k));
  }

  lemma TakeOneMore<A>(s: seq<A>, k: nat)
    requires k <= |s|
    ensures k < |s| ==> s[..k] + [s[k]] == s[..k + 1]
    ensures s[..k] + [] == s[..k]
  {
  }

  /** The stages a successful start shows a component. */
  function Expected(c: Component): seq<Stage> {
    if c == HttpClient then [Initialize, Start] else [Initialize, Start, PostStart, Started]
  }

  lemma StagesOfPrefix(c: Component, a: seq<Action>, b: seq<Action>)
    requires a <= b
    ensures StagesOf(c, a) <= StagesOf(c, b)
  {
    StagesOfBoth(c, a, b[|a|..]);
    assert a + b[|a|..] == b;
  }

  lemma StagesOfTaken(c: Component, n: nat, taken: seq<Action>)
    requires (c.Internal? ==> c.i < n) && taken <= Schedule(n)
    ensures StagesOf(c, taken) <= Expected(c)
    ensures taken == Schedule(n) ==> StagesOf(c, taken) == Expected(c)
  {
    StagesOfPlan(c, n, PIECES);
    assert STAGES[..2] == [Initialize, Start] && STAGES[..4] == STAGES;
    StagesOfPrefix(c, taken, Schedule(n));
  }

  /** However a start ends, every manager, internal service and the HTTP client service has seen
      a beginning of its stages in order: Initialize, Start, PostStart, Started, and for the HTTP
      client service the first two. After a success it has seen them all. */
  lemma StagesComeInOrder(w: World, n: nat, c: Component)
    requires c.Internal? ==> c.i < n
    ensures var r := Run(w, NOTHING, Schedule(n));
            && StagesOf(c, r.taken) <= Expected(c)
            && (r.ok ==> StagesOf(c, r.taken) == Expected(c))
  {
    TakenFirst(w, NOTHING, Schedule(n));
    StagesOfTaken(c, n, Run(w, NOTHING, Schedule(n)).taken);
  }
}
