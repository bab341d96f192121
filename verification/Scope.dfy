/** The lifecycle scopes of libcore/sing-box/adapter/lifecycle.go: a tree of scopes whose
    cleanups run in reverse order of registration. */
module Scope {
  import opened Common

  /** What closing does, in order: a registered hook runs, or a component's scope has closed. */
  datatype Event<C> = Ran(hook: int) | Closed(component: C)

  /** The value of a scope: whether its context is live, and its cleanups in order. */
  datatype Tree<C> = Tree(open: bool, cleanups: seq<Entry<C>>)
  datatype Entry<C> = HookEntry(hook: int) | ChildEntry(component: C, sub: Tree<C>)

  /** Everything Close does to a scope, the cleanup registered last first. */
  function Unwind<C>(t: Tree<C>): seq<Event<C>>
    decreases t, |t.cleanups| + 1
  {
    UnwindFirst(t, |t.cleanups|)
  }

  /** The same for the first n cleanups. */
  function UnwindFirst<C>(t: Tree<C>, n: nat): seq<Event<C>>
    requires n <= |t.cleanups|
    decreases t, n
  {
    if n == 0 then []
    else
      UnwindEntry(t.cleanups[n - 1]) + UnwindFirst(t, n - 1)
  }

  function UnwindEntry<C>(e: Entry<C>): seq<Event<C>>
    decreases e, 0
  {
    match e
    case HookEntry(h) => [Ran(h)]
    case ChildEntry(c, sub) => Unwind(sub) + [Closed(c)]
  }

  function Hooks<C>(hooks: seq<int>): (entries: seq<Entry<C>>)
    ensures |entries| == |hooks|
  {
    seq(|hooks|, k requires 0 <= k < |hooks| => HookEntry(hooks[k]))
  }

  function WithHook<C>(t: Tree<C>, hook: int): Tree<C> {
    t.(cleanups := t.cleanups + [HookEntry(hook)])
  }

  function WithHooks<C>(t: Tree<C>, hooks: seq<int>): Tree<C> {
    t.(cleanups := t.cleanups + Hooks(hooks))
  }

  /** The position of a component's child scope among the cleanups, or their number. */
  function FindChild<C(==)>(cleanups: seq<Entry<C>>, c: C): (k: nat)
    ensures k <= |cleanups|
    ensures k < |cleanups| ==> cleanups[k].ChildEntry? && cleanups[k].component == c
    ensures forall m :: 0 <= m < k && cleanups[m].ChildEntry? ==> cleanups[m].component != c
  {
    if cleanups == [] || (cleanups[0].ChildEntry? && cleanups[0].component == c) then 0
    else 1 + FindChild(cleanups[1..], c)
  }

  /** What Start does to a live scope: the component's hooks go to its child scope, which is
      registered the first time. */
  function WithStart<C(==)>(t: Tree<C>, c: C, hooks: seq<int>): Tree<C> {
    var k := FindChild(t.cleanups, c);
    if k < |t.cleanups|
    then t.(cleanups := t.cleanups[k := ChildEntry(c, WithHooks(t.cleanups[k].sub, hooks))])
    else t.(cleanups := t.cleanups + [ChildEntry(c, Tree(true, Hooks(hooks)))])
  }

  datatype Cleanup<!C(==,!new)> = Hook(hook: int) | CloseChild(component: C, child: Scope<C>)

  /** The child scopes among the cleanups. */
  function ChildMap<C(!new)>(cleanups: seq<Cleanup<C>>): map<C, Scope<C>> {
    if cleanups == [] then map[]
    else
      var rest, last := ChildMap(cleanups[..|cleanups| - 1]), cleanups[|cleanups| - 1];
      if last.CloseChild? then rest[last.component := last.child] else rest
  }

  /** No component has two child scopes. */
  ghost predicate Distinct<C(!new)>(cleanups: seq<Cleanup<C>>) {
    cleanups == [] ||
    (var rest, last := cleanups[..|cleanups| - 1], cleanups[|cleanups| - 1];
     Distinct(rest) && (last.CloseChild? ==> last.component !in ChildMap(rest)))
  }

  lemma {:induction false} ChildMapAt<C(!new)>(cleanups: seq<Cleanup<C>>, k: nat)
    requires Distinct(cleanups) && k < |cleanups| && cleanups[k].CloseChild?
    ensures cleanups[k].component in ChildMap(cleanups)
    ensures ChildMap(cleanups)[cleanups[k].component] == cleanups[k].child
  {
    var n := |cleanups| - 1;
    if k < n { ChildMapAt(cleanups[..n], k); }
  }

  lemma {:induction false} ChildMapIndex<C(!new)>(cleanups: seq<Cleanup<C>>, c: C) returns (k: nat)
    requires c in ChildMap(cleanups)
    ensures k < |cleanups| && cleanups[k] == CloseChild(c, ChildMap(cleanups)[c])
  {
    var n := |cleanups| - 1;
    if cleanups[n].CloseChild? && cleanups[n].component == c {
      k := n;
    } else {
      k := ChildMapIndex(cleanups[..n], c);
    }
  }

  /** What a component does when it is started at a stage: it registers hooks in its own scope,
      and then succeeds or fails. */
  datatype Startup = Startup(hooks: seq<int>, ok: bool)

  class Scope<C(==,!new)> {
    var open: bool
    var cleanups: seq<Cleanup<C>>
    var children: map<C, Scope<C>>
    ghost var Repr: set<object>

    constructor ()
      ensures Valid() && fresh(Repr)
      ensures Value() == Tree(true, [])
    {
      open, cleanups, children := true, [], map[];
      Repr := {this};
    }

    ghost predicate ChildValid(k: nat)
      requires k < |cleanups| && cleanups[k].CloseChild?
      reads this, Repr
      decreases Repr, 0
    {
      var child := cleanups[k].child;
      child in Repr && child.Repr < Repr && this !in child.Repr && child.Valid()
    }

    /** The scopes form a tree, and children lists the child scopes among the cleanups. */
    ghost predicate Valid()
      reads this, Repr
      ensures Valid() ==> this in Repr
      decreases Repr, 1
    {
      && this in Repr
      && (forall k :: 0 <= k < |cleanups| && cleanups[k].CloseChild? ==> ChildValid(k))
      && (forall k, l :: 0 <= k < l < |cleanups| && cleanups[k].CloseChild? && cleanups[l].CloseChild? ==>
            cleanups[k].child.Repr !! cleanups[l].child.Repr)
      && Distinct(cleanups) && children == ChildMap(cleanups)
    }

    ghost function EntryAt(k: nat): Entry<C>
      requires Valid() && k < |cleanups|
      reads this, Repr
      decreases Repr, 0
    {
      match cleanups[k]
      case Hook(h) => HookEntry(h)
      case CloseChild(c, child) =>
        assert ChildValid(k);
        ChildEntry(c, child.Value())
    }

    ghost function Entries(n: nat): (entries: seq<Entry<C>>)
      requires Valid() && n <= |cleanups|
      reads this, Repr
      ensures |entries| == n && forall k :: 0 <= k < n ==> entries[k] == EntryAt(k)
      decreases Repr, 1, n
    {
      if n == 0 then [] else Entries(n - 1) + [EntryAt(n - 1)]
    }

    ghost function Value(): (t: Tree<C>)
      requires Valid()
      reads this, Repr
      ensures t.open == open && |t.cleanups| == |cleanups|
      ensures forall k :: 0 <= k < |cleanups| ==> t.cleanups[k] == EntryAt(k)
      decreases Repr, 2
    {
      Tree(open, Entries(|cleanups|))
    }

    /** Registers a cleanup; nothing checks that the scope is still open. */
    method Add(hook: int)
      requires Valid()
      modifies this
      ensures Valid() && Repr == old(Repr)
      ensures Value() == WithHook(old(Value()), hook)
    {
      ghost var before := Value();
      label adding:
      cleanups := cleanups + [Hook(hook)];
      forall k | 0 <= k < |old(cleanups)| && cleanups[k].CloseChild? ensures ChildValid(k) {
        assert old@adding(ChildValid(k));
      }
      assert cleanups[..|old(cleanups)|] == old(cleanups);
      forall k | 0 <= k < |old(cleanups)| ensures EntryAt(k) == old@adding(EntryAt(k)) {
        if cleanups[k].CloseChild? { assert old@adding(ChildValid(k)); }
      }
      assert Value().cleanups == before.cleanups + [HookEntry(hook)];
    }

    /** A component registers its hooks in its own scope, in order. */
    method AddAll(hooks: seq<int>)
      requires Valid()
      modifies this
      ensures Valid() && Repr == old(Repr) && open == old(open)
      ensures Value() == WithHooks(old(Value()), hooks)
    {
      ghost var before := Value();
      for n := 0 to |hooks|
        invariant Valid() && Repr == old(Repr) && open == old(open)
        invariant Value() == WithHooks(before, hooks[..n])
      {
        Add(hooks[n]);
        assert Hooks<C>(hooks[..n + 1]) == Hooks(hooks[..n]) + [HookEntry(hooks[n])];
        Associate(before.cleanups, Hooks(hooks[..n]), [HookEntry(hooks[n])]);
      }
      assert hooks[..|hooks|] == hooks;
    }

    /** Adds a new child scope and the cleanup that closes it. */
    method Register(c: C, child: Scope<C>)
      requires Valid() && c !in children
      requires child.Valid() && child.Repr !! Repr
      modifies this
      ensures Valid() && Repr == old(Repr) + child.Repr && open == old(open)
      ensures cleanups == old(cleanups) + [CloseChild(c, child)] && children == old(children)[c := child]
      ensures Value().cleanups == old(Value()).cleanups + [ChildEntry(c, old(child.Value()))]
    {
      ghost var before, k := Value(), |cleanups|;
      children := children[c := child];
      cleanups := cleanups + [CloseChild(c, child)];
      Repr := Repr + child.Repr;
      forall m | 0 <= m < |cleanups| && cleanups[m].CloseChild? ensures ChildValid(m) {
        if m < k { assert old(ChildValid(m)); }
      }
      assert cleanups[..k] == old(cleanups);
      forall m | 0 <= m < k ensures EntryAt(m) == before.cleanups[m] {
        if cleanups[m].CloseChild? { assert old(ChildValid(m)); }
      }
    }

    /** The cleanup of a registered component is the one FindChild finds. */
    lemma RegisteredAt(c: C) returns (k: nat)
      requires Valid()
      ensures k == FindChild(Value().cleanups, c)
      ensures c in children <==> k < |cleanups|
      ensures c in children ==> cleanups[k] == CloseChild(c, children[c]) && ChildValid(k)
    {
      k := FindChild(Value().cleanups, c);
      if c in children {
        var m := ChildMapIndex(cleanups, c);
        assert Value().cleanups[m] == EntryAt(m);
      }
      if k < |cleanups| {
        assert Value().cleanups[k] == EntryAt(k);
        ChildMapAt(cleanups, k);
        assert ChildValid(k);
      }
    }

    /** The child scope of a component, registered on its first start. */
    method ChildFor(c: C) returns (child: Scope<C>)
      requires Valid() && open
      modifies this
      ensures Valid() && fresh(Repr - old(Repr)) && open
      ensures c in children && children[c] == child
      ensures Value() == WithStart(old(Value()), c, [])
    {
      ghost var before := Value();
      ghost var k := RegisteredAt(c);
      if c in children {
        child := children[c];
        ghost var sub := before.cleanups[k].sub;
        assert sub.cleanups + Hooks([]) == sub.cleanups;
        assert before.cleanups[k := ChildEntry(c, sub)] == before.cleanups;
      } else {
        child := new Scope<C>();
        Register(c, child);
        assert Hooks<C>([]) == [];
      }
    }

    /** Hooks registered in a child scope change its entry alone. */
    method AddToChild(child: Scope<C>, hooks: seq<int>, ghost k: nat)
      requires Valid() && k < |cleanups| && cleanups[k].CloseChild? && cleanups[k].child == child
      modifies child
      ensures Valid() && open == old(open) && cleanups == old(cleanups)
      ensures old(EntryAt(k)).ChildEntry?
              && EntryAt(k) == old(EntryAt(k)).(sub := WithHooks(old(EntryAt(k)).sub, hooks))
      ensures Value().cleanups == old(Value()).cleanups[k := EntryAt(k)]
    {
      ghost var t := Value();
      assert ChildValid(k);
      assert child.Repr <= Repr;
      child.AddAll(hooks);
      forall m | 0 <= m < |cleanups| && cleanups[m].CloseChild? ensures ChildValid(m) {
        assert old(ChildValid(m));
      }
      forall m | 0 <= m < |cleanups| && m != k ensures EntryAt(m) == t.cleanups[m] {
        assert t.cleanups[m] == old(EntryAt(m));
        if cleanups[m].CloseChild? { assert old(ChildValid(m)); }
      }
    }

    /** Start: on a closed scope nothing happens; otherwise the component starts with its child
        scope, whatever it registers there stays registered even when it fails. */
    method Start(c: C, startup: Startup) returns (ok: bool)
      requires Valid()
      modifies Repr
      ensures Valid() && fresh(Repr - old(Repr))
      ensures !old(open) ==> !ok && Value() == old(Value())
      ensures old(open) ==> ok == startup.ok && Value() == WithStart(old(Value()), c, startup.hooks)
    {
      if !open {
        return false;
      }
      ghost var before := Value();
      var child := ChildFor(c);
      ghost var k := RegisteredAt(c);
      FindKept(before, c);
      WithStartTwice(before, c, startup.hooks);
      assert Value().cleanups[k] == EntryAt(k) && ChildValid(k);
      AddToChild(child, startup.hooks, k);
      ok := startup.ok;
    }

    /** A child scope still to be closed: nothing in it has changed. */
    static ghost predicate Waiting(cleanup: Cleanup<C>, entry: Entry<C>, repr: set<object>)
      requires cleanup.CloseChild?
      reads cleanup.child, cleanup.child.Repr
    {
      cleanup.child.Repr == repr && cleanup.child.Valid() &&
      entry == ChildEntry(cleanup.component, cleanup.child.Value())
    }

    /** The objects of the child scopes among the first n cleanups. */
    ghost function Reprs(n: nat): (reprs: seq<set<object>>)
      requires Valid() && n <= |cleanups|
      reads this, Repr
      ensures |reprs| == n
      ensures forall k :: 0 <= k < n ==> reprs[k] == if cleanups[k].CloseChild? then cleanups[k].child.Repr else {}
    {
      if n == 0 then []
      else
        Reprs(n - 1) + [if cleanups[n - 1].CloseChild?
                        then (assert ChildValid(n - 1); cleanups[n - 1].child.Repr) else {}]
    }

    /** The part of Close under the lock: the scope gives up its cleanups. */
    method Detach() returns (cs: seq<Cleanup<C>>, ghost reprs: seq<set<object>>)
      requires Valid()
      modifies this
      ensures Valid() && Repr == old(Repr) && Value() == Tree(false, [])
      ensures |cs| == |reprs| == |old(Value()).cleanups|
      ensures forall m :: 0 <= m < |cs| ==>
                if cs[m].CloseChild? then Waiting(cs[m], old(Value()).cleanups[m], reprs[m])
                else old(Value()).cleanups[m] == HookEntry(cs[m].hook)
      ensures forall m :: 0 <= m < |cs| ==> reprs[m] < Repr && this !in reprs[m]
      ensures forall k, l :: 0 <= k < l < |cs| ==> reprs[k] !! reprs[l]
    {
      ghost var t := Value();
      cs, reprs := cleanups, Reprs(|cleanups|);
      forall m | 0 <= m < |cs| && cs[m].CloseChild?
        ensures Waiting(cs[m], t.cleanups[m], reprs[m]) && reprs[m] < Repr && this !in reprs[m]
      {
        assert ChildValid(m);
      }
      open, cleanups, children := false, [], map[];
    }

    /** The closure registered with a cleanup. */
    static method RunCleanup(cleanup: Cleanup<C>, ghost entry: Entry<C>, ghost repr: set<object>)
      returns (log: seq<Event<C>>)
      requires if cleanup.CloseChild? then Waiting(cleanup, entry, repr) else entry == HookEntry(cleanup.hook)
      modifies repr
      ensures log == UnwindEntry(entry)
      decreases repr, 1
    {
      match cleanup
      case Hook(h) =>
        log := [Ran(h)];
      case CloseChild(c, child) =>
        log := child.Close();
        log := log + [Closed(c)];
    }

    /** Close: every cleanup runs once, last first, the child scopes' cleanups before they
        count as closed; a second Close does nothing. */
    method Close() returns (log: seq<Event<C>>)
      requires Valid()
      modifies Repr
      ensures Valid() && Repr == old(Repr)
      ensures log == Unwind(old(Value())) && Value() == Tree(false, [])
      decreases Repr, 0
    {
      ghost var t := Value();
      ghost var reprs;
      var cs;
      cs, reprs := Detach();
      log := [];
      var k: nat := |cs|;
      while k > 0
        invariant k <= |cs| && Repr == old(Repr)
        invariant !open && cleanups == [] && children == map[]
        invariant log + UnwindFirst(t, k) == Unwind(t)
        invariant forall m :: 0 <= m < k && cs[m].CloseChild? ==> Waiting(cs[m], t.cleanups[m], reprs[m])
      {
        k := k - 1;
        var entryLog := RunCleanup(cs[k], t.cleanups[k], reprs[k]);
        Associate(log, entryLog, UnwindFirst(t, k));
        log := log + entryLog;
      }
      assert log + [] == log;
    }
  }

  lemma {:induction false} FindAppended<C>(cleanups: seq<Entry<C>>, last: Entry<C>, c: C)
    requires FindChild(cleanups, c) == |cleanups| && last.ChildEntry? && last.component == c
    ensures FindChild(cleanups + [last], c) == |cleanups|
  {
    if cleanups != [] {
      assert (cleanups + [last])[1..] == cleanups[1..] + [last];
      FindAppended(cleanups[1..], last, c);
    }
  }

  /** A started component is found where it was registered. */
  lemma FindKept<C>(t: Tree<C>, c: C)
    ensures FindChild(WithStart(t, c, []).cleanups, c) == FindChild(t.cleanups, c)
  {
    var k := FindChild(t.cleanups, c);
    if k < |t.cleanups| {
      assert t.cleanups[k].sub.cleanups + Hooks([]) == t.cleanups[k].sub.cleanups;
      assert WithStart(t, c, []).cleanups == t.cleanups;
    } else {
      FindAppended(t.cleanups, ChildEntry(c, Tree(true, Hooks([]))), c);
    }
  }

  /** Registering a component and then its hooks is one start. */
  lemma WithStartTwice<C>(t: Tree<C>, c: C, hooks: seq<int>)
    ensures WithStart(WithStart(t, c, []), c, hooks) == WithStart(t, c, hooks)
  {
    FindKept(t, c);
    var k := FindChild(t.cleanups, c);
    var once, twice := WithStart(t, c, []), WithStart(t, c, hooks);
    if k < |t.cleanups| {
      assert t.cleanups[k].sub.cleanups + Hooks([]) == t.cleanups[k].sub.cleanups;
      assert once.cleanups == t.cleanups;
    } else {
      assert Hooks<C>([]) + Hooks(hooks) == Hooks(hooks);
      assert WithStart(once, c, hooks).cleanups == twice.cleanups;
    }
  }
}
