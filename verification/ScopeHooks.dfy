/** Which hooks run when a scope closes, and in which order: those that were registered anywhere in
    it, each once and last first; and what that means for a start of the box. */
module ScopeHooks {
  import opened Common
  import opened Scope
  import opened BoxStart
  import opened StartOrder

  /** The hooks that a log tells have run, in order. */
  function RanIn<C>(log: seq<Event<C>>): seq<int> {
    if log == [] then [] else (if log[0].Ran? then [log[0].hook] else []) + RanIn(log[1..])
  }

  /** The hooks in a scope and in the scopes below it, in the order of its cleanups. */
  function HooksOf<C>(t: Tree<C>): seq<int> {
    HooksIn(t.cleanups)
  }

  function HooksIn<C>(cleanups: seq<Entry<C>>): seq<int> {
    if cleanups == [] then []
    else HooksIn(cleanups[..|cleanups| - 1]) + HooksOfEntry(cleanups[|cleanups| - 1])
  }

  function HooksOfEntry<C>(e: Entry<C>): seq<int> {
    match e
    case HookEntry(h) => [h]
    case ChildEntry(_, sub) => HooksOf(sub)
  }

  lemma {:induction false} HooksInBoth<C>(a: seq<Entry<C>>, b: seq<Entry<C>>)
    ensures HooksIn(a + b) == HooksIn(a) + HooksIn(b)
  {
    if b == [] {
      assert a + b == a;
    } else {
      var n := |b| - 1;
      HooksInBoth(a, b[..n]);
      assert (a + b)[..|a| + n] == a + b[..n];
      Associate(HooksIn(a), HooksIn(b[..n]), HooksOfEntry(b[n]));
    }
  }

  lemma HooksInOne<C>(e: Entry<C>)
    ensures HooksIn([e]) == HooksOfEntry(e)
  {
    assert [e][..0] == [];
  }

  lemma {:induction false} RanInBoth<C>(a: seq<Event<C>>, b: seq<Event<C>>)
    ensures RanIn(a + b) == RanIn(a) + RanIn(b)
  {
    if a == [] {
      assert a + b == b;
    } else {
      RanInBoth(a[1..], b);
      assert (a + b)[0] == a[0] && (a + b)[1..] == a[1..] + b;
      Associate(if a[0].Ran? then [a[0].hook] else [], RanIn(a[1..]), RanIn(b));
    }
  }

  lemma {:induction false} ReverseBoth<A>(a: seq<A>, b: seq<A>)
    ensures Reverse(a + b) == Reverse(b) + Reverse(a)
  {
    if b == [] {
      assert a + b == a;
    } else {
      var n := |b| - 1;
      ReverseBoth(a, b[..n]);
      assert (a + b)[..|a| + n] == a + b[..n];
      Associate([b[n]], Reverse(b[..n]), Reverse(a));
    }
  }

  /** Closing a scope runs the hooks registered in it and below it, each once and last first. */
  lemma {:induction false} HooksRunInReverse<C>(t: Tree<C>)
    ensures RanIn(Unwind(t)) == Reverse(HooksOf(t))
    decreases t, |t.cleanups| + 1
  {
    FirstRunInReverse(t, |t.cleanups|);
    assert t.cleanups[..|t.cleanups|] == t.cleanups;
  }

  lemma {:induction false} FirstRunInReverse<C>(t: Tree<C>, n: nat)
    requires n <= |t.cleanups|
    ensures RanIn(UnwindFirst(t, n)) == Reverse(HooksIn(t.cleanups[..n]))
    decreases t, n
  {
    if n > 0 {
      var last := t.cleanups[n - 1];
      FirstRunInReverse(t, n - 1);
      EntryRunsInReverse(last);
      RanInBoth(UnwindEntry(last), UnwindFirst(t, n - 1));
      assert t.cleanups[..n][..n - 1] == t.cleanups[..n - 1];
      ReverseBoth(HooksIn(t.cleanups[..n - 1]), HooksOfEntry(last));
    }
  }

  lemma {:induction false} EntryRunsInReverse<C>(e: Entry<C>)
    ensures RanIn(UnwindEntry(e)) == Reverse(HooksOfEntry(e))
    decreases e, 0
  {
    if e.ChildEntry? {
      HooksRunInReverse(e.sub);
      RanInBoth(Unwind(e.sub), [Closed(e.component)]);
    }
  }

  /** What happens before the first k cleanups have their turn. */
  lemma {:induction false} LaterFirst<C>(t: Tree<C>, k: nat, n: nat) returns (later: seq<Event<C>>)
    requires k <= n <= |t.cleanups|
    ensures UnwindFirst(t, n) == later + UnwindFirst(t, k)
  {
    if k == n {
      later := [];
    } else {
      later := LaterFirst(t, k, n - 1);
      Associate(UnwindEntry(t.cleanups[n - 1]), later, UnwindFirst(t, k));
      later := UnwindEntry(t.cleanups[n - 1]) + later;
    }
  }

  /** A component counts as closed right after its own scope has been unwound. */
  lemma ClosedAfterItsHooks<C>(t: Tree<C>, k: nat)
    returns (later: seq<Event<C>>, own: seq<Event<C>>, earlier: seq<Event<C>>)
    requires k < |t.cleanups| && t.cleanups[k].ChildEntry?
    ensures Unwind(t) == later + own + [Closed(t.cleanups[k].component)] + earlier
    ensures RanIn(own) == Reverse(HooksOf(t.cleanups[k].sub))
  {
    own, earlier := Unwind(t.cleanups[k].sub), UnwindFirst(t, k);
    var closed := [Closed(t.cleanups[k].component)];
    later := LaterFirst(t, k + 1, |t.cleanups|);
    HooksRunInReverse(t.cleanups[k].sub);
    assert later + (own + closed + earlier) == later + own + closed + earlier;
  }

  // ---------------------------------------------------------------- a start of the box

  /** The hooks that one step registers. */
  function HooksBy(w: World, a: Action): seq<int> {
    match a
    case StartLogger => if w.logger == Runs then [LOGGER] else []
    case StartDebugServer => if w.debugServer == Runs then [DEBUG_SERVER] else []
    case StartNtp => if w.ntp == Runs then [NTP] else []
    case Invoke(c, stage) => w.startup(c, stage).hooks
  }

  /** The hooks that a list of steps registers, in order. */
  function Registered(w: World, taken: seq<Action>): seq<int> {
    if taken == [] then [] else Registered(w, taken[..|taken| - 1]) + HooksBy(w, taken[|taken| - 1])
  }

  /** Those of one component, at all its stages. */
  function RegisteredBy(w: World, c: Component, taken: seq<Action>): seq<int> {
    if taken == [] then []
    else
      var before, last := RegisteredBy(w, c, taken[..|taken| - 1]), taken[|taken| - 1];
      if last.Invoke? && last.c == c then before + HooksBy(w, last) else before
  }

  lemma {:induction false} HooksAreIn<C>(hooks: seq<int>)
    ensures HooksIn<C>(Hooks(hooks)) == hooks
  {
    if hooks != [] {
      var n := |hooks| - 1;
      HooksAreIn<C>(hooks[..n]);
      assert Hooks<C>(hooks)[..n] == Hooks<C>(hooks[..n]);
      assert hooks == hooks[..n] + [hooks[n]];
    }
  }

  lemma HooksAdded<C>(t: Tree<C>, hooks: seq<int>)
    ensures HooksOf(WithHooks(t, hooks)) == HooksOf(t) + hooks
  {
    HooksInBoth(t.cleanups, Hooks(hooks));
    HooksAreIn<C>(hooks);
  }

  lemma CountMiddle<A>(a: seq<A>, b: seq<A>, more: seq<A>, c: seq<A>)
    ensures multiset(a + (b + more) + c) == multiset(a + b + c) + multiset(more)
  {
  }

  lemma HooksAround<C>(a: seq<Entry<C>>, e: Entry<C>, b: seq<Entry<C>>)
    ensures HooksIn(a + [e] + b) == HooksIn(a) + HooksOfEntry(e) + HooksIn(b)
  {
    HooksInBoth(a + [e], b);
    HooksInBoth(a, [e]);
    HooksInOne(e);
  }

  /** An entry with further hooks adds those, wherever it stands. */
  lemma EntryGrows<C>(a: seq<Entry<C>>, e: Entry<C>, grown: Entry<C>, b: seq<Entry<C>>, hooks: seq<int>)
    requires HooksOfEntry(grown) == HooksOfEntry(e) + hooks
    ensures multiset(HooksIn(a + [grown] + b)) == multiset(HooksIn(a + [e] + b)) + multiset(hooks)
  {
    HooksAround(a, e, b);
    HooksAround(a, grown, b);
    CountMiddle(HooksIn(a), HooksOfEntry(e), hooks, HooksIn(b));
  }

  lemma Around<A>(s: seq<A>, k: nat, a: A)
    requires k < |s|
    ensures s[k := a] == s[..k] + [a] + s[k + 1..] && s == s[..k] + [s[k]] + s[k + 1..]
  {
  }

  lemma StartAdds<C>(t: Tree<C>, c: C, hooks: seq<int>)
    ensures multiset(HooksOf(WithStart(t, c, hooks))) == multiset(HooksOf(t)) + multiset(hooks)
  {
    var k := FindChild(t.cleanups, c);
    if k < |t.cleanups| {
      HooksAdded(t.cleanups[k].sub, hooks);
      var grown := ChildEntry(c, WithHooks(t.cleanups[k].sub, hooks));
      Around(t.cleanups, k, grown);
      EntryGrows(t.cleanups[..k], t.cleanups[k], grown, t.cleanups[k + 1..], hooks);
    } else {
      var child: Entry<C> := ChildEntry(c, Tree(true, Hooks(hooks)));
      HooksAreIn<C>(hooks);
      HooksInBoth(t.cleanups, [child]);
      HooksInOne(child);
    }
  }

  lemma HookAdds<C>(t: Tree<C>, hook: int)
    ensures multiset(HooksOf(WithHook(t, hook))) == multiset(HooksOf(t)) + multiset([hook])
  {
    HooksInBoth(t.cleanups, [HookEntry(hook)]);
    HooksInOne<C>(HookEntry(hook));
  }

  lemma ActAdds(w: World, t: Tree<Component>, a: Action)
    ensures multiset(HooksOf(Act(w, t, a))) == multiset(HooksOf(t)) + multiset(HooksBy(w, a))
  {
    if a.Invoke? {
      StartAdds(t, a.c, w.startup(a.c, a.stage).hooks);
    } else if HooksBy(w, a) != [] {
      HookAdds(t, HooksBy(w, a)[0]);
    }
  }

  lemma {:induction false} ScopeHoldsRegistered(w: World, actions: seq<Action>)
    ensures var r := Run(w, NOTHING, actions);
            multiset(HooksOf(r.scope)) == multiset(Registered(w, r.taken))
  {
    if actions != [] {
      var n := |actions| - 1;
      ScopeHoldsRegistered(w, actions[..n]);
      var r := Run(w, NOTHING, actions[..n]);
      if r.ok {
        ActAdds(w, r.scope, actions[n]);
        assert (r.taken + [actions[n]])[..|r.taken|] == r.taken;
      }
    }
  }

  lemma {:induction false} ReverseKeepsCount<A>(s: seq<A>)
    ensures multiset(Reverse(s)) == multiset(s)
  {
    if s != [] {
      var n := |s| - 1;
      ReverseKeepsCount(s[..n]);
      assert s == s[..n] + [s[n]];
    }
  }

  /** After a start, whether it failed or succeeded, closing the box runs every hook that was
      registered on the way, the failed step's among them, as often as it was registered. */
  lemma EveryRegisteredHookRuns(w: World, n: nat)
    ensures var r := Run(w, NOTHING, Schedule(n));
            multiset(RanIn(Unwind(r.scope))) == multiset(Registered(w, r.taken))
  {
    var r := Run(w, NOTHING, Schedule(n));
    ScopeHoldsRegistered(w, Schedule(n));
    HooksRunInReverse(r.scope);
    ReverseKeepsCount(HooksOf(r.scope));
  }

  /** The child scopes hold the hooks of their components. */
  ghost predicate ChildrenHold(w: World, t: Tree<Component>, taken: seq<Action>) {
    forall k :: 0 <= k < |t.cleanups| && t.cleanups[k].ChildEntry? ==>
      HooksOf(t.cleanups[k].sub) == RegisteredBy(w, t.cleanups[k].component, taken)
  }

  lemma {:induction false} NotInvokedNotRegistered(w: World, c: Component, taken: seq<Action>)
    requires c !in Invoked(taken)
    ensures RegisteredBy(w, c, taken) == []
  {
    if taken != [] { NotInvokedNotRegistered(w, c, taken[..|taken| - 1]); }
  }

  lemma {:induction false} ChildPosition<C(!new)>(cleanups: seq<Entry<C>>, k: nat)
    requires k < |cleanups| && cleanups[k].ChildEntry? && NoRepeats(Children(cleanups))
    ensures FindChild(cleanups, cleanups[k].component) == k
  {
    var m := FindChild(cleanups, cleanups[k].component);
    if m < k { TwoChildren(cleanups, m, k); }
  }

  lemma {:induction false} TwoChildren<C(!new)>(cleanups: seq<Entry<C>>, m: nat, k: nat)
    requires m < k < |cleanups| && cleanups[m].ChildEntry? && cleanups[k].ChildEntry?
    requires cleanups[m].component == cleanups[k].component
    ensures !NoRepeats(Children(cleanups))
  {
    var n := |cleanups| - 1;
    if k < n {
      TwoChildren(cleanups[..n], m, k);
      var before := Children(cleanups[..n]);
      var i, j :| 0 <= i < j < |before| && before[i] == before[j];
      assert Children(cleanups)[i] == Children(cleanups)[j];
    } else {
      ChildIsListed(cleanups[..n], m);
      var before := Children(cleanups[..n]);
      var i :| 0 <= i < |before| && before[i] == cleanups[m].component;
      assert Children(cleanups)[i] == Children(cleanups)[|before|];
    }
  }

  lemma InvokeHolds(w: World, t: Tree<Component>, taken: seq<Action>, a: Action)
    requires ChildrenHold(w, t, taken) && Children(t.cleanups) == Invoked(taken) && a.Invoke?
    ensures ChildrenHold(w, Act(w, t, a), taken + [a])
  {
    var u, hooks := Act(w, t, a), w.startup(a.c, a.stage).hooks;
    var at := FindChild(t.cleanups, a.c);
    InvokedInOrder(taken);
    assert (taken + [a])[..|taken|] == taken;
    forall k | 0 <= k < |u.cleanups| && u.cleanups[k].ChildEntry?
      ensures HooksOf(u.cleanups[k].sub) == RegisteredBy(w, u.cleanups[k].component, taken + [a])
    {
      if k == at {
        FoundIffChild(t.cleanups, a.c);
        if at < |t.cleanups| {
          HooksAdded(t.cleanups[k].sub, hooks);
        } else {
          HooksAdded(NOTHING, hooks);
          assert WithHooks(NOTHING, hooks) == Tree(true, Hooks(hooks));
          NotInvokedNotRegistered(w, a.c, taken);
        }
      } else {
        ChildPosition(t.cleanups, k);
      }
    }
  }

  lemma SimpleHolds(w: World, t: Tree<Component>, taken: seq<Action>, a: Action)
    requires ChildrenHold(w, t, taken) && !a.Invoke?
    ensures ChildrenHold(w, Act(w, t, a), taken + [a])
  {
    assert (taken + [a])[..|taken|] == taken;
    assert Act(w, t, a).cleanups[..|t.cleanups|] == t.cleanups;
  }

  lemma {:induction false} RunHolds(w: World, actions: seq<Action>)
    ensures var r := Run(w, NOTHING, actions); ChildrenHold(w, r.scope, r.taken)
  {
    if actions != [] {
      var n := |actions| - 1;
      RunHolds(w, actions[..n]);
      RunRegisters(w, actions[..n]);
      var r, a := Run(w, NOTHING, actions[..n]), actions[n];
      if r.ok {
        if a.Invoke? {
          InvokeHolds(w, r.scope, r.taken, a);
        } else {
          SimpleHolds(w, r.scope, r.taken, a);
        }
      }
    }
  }

  /** When the box closes after a start, a component that was invoked has its hooks of all stages
      run, last first and without a hook of another between them, and is closed right after. */
  lemma ComponentIsUnwound(w: World, n: nat, c: Component)
    returns (later: seq<Event<Component>>, own: seq<Event<Component>>, earlier: seq<Event<Component>>)
    requires c in Invoked(Run(w, NOTHING, Schedule(n)).taken)
    ensures var r := Run(w, NOTHING, Schedule(n));
            && Unwind(r.scope) == later + own + [Closed(c)] + earlier
            && RanIn(own) == Reverse(RegisteredBy(w, c, r.taken))
  {
    var r := Run(w, NOTHING, Schedule(n));
    RunRegisters(w, Schedule(n));
    RunHolds(w, Schedule(n));
    var k := ListedIsChild(r.scope.cleanups, c);
    later, own, earlier := ClosedAfterItsHooks(r.scope, k);
  }
}
