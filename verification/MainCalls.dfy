/** What a call on an instance has done once it returns, in every run of the two-lock protocol. */
module MainCalls {
  import opened Common
  import opened MainInstance

  /** The thread is on its way through a call with this goal, and its work is not done. */
  predicate Underway(pc: Pc, b: nat, goal: Goal) {
    || pc == Locking(b, goal) || pc == Locked(b, goal)
    || match goal
       case ToStart => pc == Starting(b)
       case ToClose => ClosingBox(pc) && pc.b == b
       case ToBeMain => pc in {WantMain(b, false), HoldMain(b, false), Stopping(b, false), Serving(b)}
       case ToUse => pc == Using(b)
  }

  /** The step in which thread t does the work of such a call, or finds that there is none. */
  predicate DoesWork(s: State, e: Step, t: nat, b: nat, goal: Goal) {
    && e.Advance? && e.t == t && t < |s.threads| && b < |s.boxes|
    && var pc, life := s.threads[t], s.boxes[b].life;
       match goal
       case ToStart => pc == Starting(b) || (pc == Locked(b, goal) && life != New)
       case ToClose => pc == Tearing(b) || (pc == Locked(b, goal) && life == Closed)
       case ToBeMain => pc == Serving(b) || (pc == Locked(b, goal) && life == Closed)
       case ToUse => pc == Using(b) || (pc == Locked(b, goal) && life == Closed)
  }

  lemma OthersStand(s: State, e: Step, t: nat)
    requires Enabled(s, e) && t < |s.threads| && !e.Create? && e.t != t
    ensures t < |Apply(s, e).threads| && Apply(s, e).threads[t] == s.threads[t]
  {
  }

  lemma GoesOn(s: State, e: Step, t: nat, b: nat, goal: Goal)
    requires Inv(s) && Enabled(s, e) && t < |s.threads| && Underway(s.threads[t], b, goal)
    ensures t < |Apply(s, e).threads|
    ensures Underway(Apply(s, e).threads[t], b, goal) || DoesWork(s, e, t, b, goal)
  {
    assert ThreadOk(s, t);
    if !e.Create? && e.t != t { OthersStand(s, e, t); }
  }

  /** A call that step i has begun on thread t has returned at k. */
  ghost predicate Returned(run: seq<State>, steps: seq<Step>, i: nat, k: nat, t: nat, call: Call) {
    && IsRun(run, steps) && i < k < |run| && steps[i] == Begin(t, call)
    && t < |run[k].threads| && run[k].threads[t] == Idle
  }

  /** Between i and k thread t has done the work of a call with this goal. */
  ghost predicate WorkDone(run: seq<State>, steps: seq<Step>, i: nat, k: nat, t: nat, b: nat, goal: Goal)
    requires k <= |steps| < |run|
  {
    exists j :: i < j < k && DoesWork(run[j], steps[j], t, b, goal)
  }

  lemma {:induction false} CallStage(
    run: seq<State>, steps: seq<Step>, i: nat, k: nat, t: nat, b: nat, goal: Goal, from: nat)
    requires IsRun(run, steps) && i <= from <= k < |run|
    requires from < |run| && t < |run[from].threads| && Underway(run[from].threads[t], b, goal) && i < from
    ensures t < |run[k].threads|
    ensures Underway(run[k].threads[t], b, goal) || WorkDone(run, steps, i, k, t, b, goal)
  {
    if k > from {
      CallStage(run, steps, i, k - 1, t, b, goal, from);
      assert run[k] == Apply(run[k - 1], steps[k - 1]);
      RunInv(run, steps, k - 1);
      if Underway(run[k - 1].threads[t], b, goal) {
        GoesOn(run[k - 1], steps[k - 1], t, b, goal);
      } else {
        ThreadsStay(run[k - 1], steps[k - 1]);
      }
    }
  }

  lemma ThreadsStay(s: State, e: Step)
    requires Enabled(s, e)
    ensures |Apply(s, e).threads| == |s.threads|
  {
  }

  /** A call does its work before it returns: once its thread is idle again, it has been through
      the start, the teardown, the change of the main instance or the use that the call is for, or
      it has found, with the lock held, that there was nothing to do. */
  lemma CallDoesItsWork(run: seq<State>, steps: seq<Step>, i: nat, k: nat, t: nat, b: nat, goal: Goal)
    requires Returned(run, steps, i, k, t, CallGoal(b, goal))
    ensures WorkDone(run, steps, i, k, t, b, goal)
  {
    assert run[i + 1] == Apply(run[i], steps[i]);
    CallStage(run, steps, i, k, t, b, goal, i + 1);
  }

  // ---------------------------------------------------------------- Close

  /** The instance is closed, and nobody is in the middle of closing it. */
  predicate Settled(s: State, b: nat) {
    b < |s.boxes| && s.boxes[b].life == Closed && !ClosingBox(HolderPc(s, b))
  }

  lemma OtherBoxSame(s: State, t: nat, ok: bool, b: nat)
    requires Enabled(s, Advance(t, ok)) && b < |s.boxes| && (!HasBox(s.threads[t]) || s.threads[t].b != b)
    ensures b < |Next(s, t, ok).boxes| && Next(s, t, ok).boxes[b] == s.boxes[b]
  {
  }

  lemma ElsewhereStaysSettled(s: State, t: nat, ok: bool, b: nat)
    requires Inv(s) && Enabled(s, Advance(t, ok)) && Settled(s, b)
    requires !HasBox(s.threads[t]) || s.threads[t].b != b
    ensures Settled(Next(s, t, ok), b)
  {
    assert BoxOk(s, b);
    assert s.boxes[b].holder != Some(t);
    OtherBoxSame(s, t, ok, b);
    var pc := AdvanceWorks(s, t, ok);
  }

  lemma HereStaysSettled(s: State, t: nat, ok: bool, b: nat)
    requires Inv(s) && Enabled(s, Advance(t, ok)) && Settled(s, b)
    requires HasBox(s.threads[t]) && s.threads[t].b == b
    ensures Settled(Next(s, t, ok), b)
  {
    assert ThreadOk(s, t) && BoxOk(s, b);
    assert !ClosingBox(Next(s, t, ok).threads[t]);
  }

  lemma StaysSettled(s: State, e: Step, b: nat)
    requires Inv(s) && Enabled(s, e) && Settled(s, b)
    ensures Settled(Apply(s, e), b)
  {
    if e.Advance? {
      if HasBox(s.threads[e.t]) && s.threads[e.t].b == b {
        HereStaysSettled(s, e.t, e.ok, b);
      } else {
        ElsewhereStaysSettled(s, e.t, e.ok, b);
      }
    } else if e.Begin? {
      assert BoxOk(s, b);
    }
  }

  lemma CloseSettles(s: State, e: Step, t: nat, b: nat)
    requires Inv(s) && Enabled(s, e) && DoesWork(s, e, t, b, ToClose)
    ensures Settled(Apply(s, e), b)
  {
    assert ThreadOk(s, t) && BoxOk(s, b);
  }

  lemma NextIsSettled(run: seq<State>, steps: seq<Step>, k: nat, b: nat)
    requires IsRun(run, steps) && k < |steps| && Settled(run[k], b)
    ensures Settled(run[k + 1], b)
  {
    RunInv(run, steps, k);
    StaysSettled(run[k], steps[k], b);
  }

  lemma {:induction false} SettledForGood(run: seq<State>, steps: seq<Step>, j: nat, k: nat, b: nat)
    requires IsRun(run, steps) && j <= k < |run| && Settled(run[j], b)
    ensures Settled(run[k], b)
  {
    if j < k {
      SettledForGood(run, steps, j, k - 1, b);
      NextIsSettled(run, steps, k - 1, b);
    }
  }

  lemma SettledMeans(s: State, b: nat)
    requires Inv(s) && Settled(s, b)
    ensures s.main != Some(b) && s.boxes[b].teardowns == if s.boxes[b].failed then 2 else 1
    ensures s.mainLock == None && s.server.Some? ==> s.server.value.owner != b
  {
    assert BoxOk(s, b);
  }

  /** After a call of Close has returned, and for good: the instance is closed, it is not the main
      one, its box has been torn down, once by a close and once more only if its start failed, and
      outside the sections under the main-instance lock the protect server is not its own. */
  lemma CloseCloses(run: seq<State>, steps: seq<Step>, i: nat, k: nat, later: nat, t: nat, b: nat)
    requires Returned(run, steps, i, k, t, CallGoal(b, ToClose)) && k <= later < |run|
    ensures var s := run[later];
            && b < |s.boxes| && s.boxes[b].life == Closed && s.main != Some(b)
            && s.boxes[b].teardowns == (if s.boxes[b].failed then 2 else 1)
            && (s.mainLock == None && s.server.Some? ==> s.server.value.owner != b)
  {
    CallDoesItsWork(run, steps, i, k, t, b, ToClose);
    var j :| i < j < k && DoesWork(run[j], steps[j], t, b, ToClose);
    RunInv(run, steps, j);
    assert run[j + 1] == Apply(run[j], steps[j]);
    CloseSettles(run[j], steps[j], t, b);
    SettledForGood(run, steps, j + 1, later, b);
    RunInv(run, steps, later);
    SettledMeans(run[later], b);
  }

  // ---------------------------------------------------------------- Start

  lemma StartsStay(s: State, e: Step, b: nat)
    requires Enabled(s, e) && b < |s.boxes| && s.boxes[b].starts >= 1
    ensures b < |Apply(s, e).boxes| && Apply(s, e).boxes[b].starts >= 1
  {
  }

  lemma {:induction false} StartedForGood(run: seq<State>, steps: seq<Step>, j: nat, k: nat, b: nat)
    requires IsRun(run, steps) && j <= k < |run| && b < |run[j].boxes| && run[j].boxes[b].starts >= 1
    ensures b < |run[k].boxes| && run[k].boxes[b].starts >= 1
  {
    if j < k {
      StartedForGood(run, steps, j, k - 1, b);
      assert run[k] == Apply(run[k - 1], steps[k - 1]);
      StartsStay(run[k - 1], steps[k - 1], b);
    }
  }

  lemma StartsOnce(s: State, b: nat)
    requires Inv(s) && b < |s.boxes|
    ensures s.boxes[b].starts <= 1
  {
    assert BoxOk(s, b);
  }

  lemma StartMeans(s: State, e: Step, t: nat, b: nat)
    requires Inv(s) && DoesWork(s, e, t, b, ToStart)
    ensures s.boxes[b].starts == 1 || s.boxes[b].life == Closed
  {
    assert ThreadOk(s, t) && BoxOk(s, b);
  }

  /** After a call of Start has returned, the box has been started, once; or the call has found the
      instance closed. */
  lemma StartStarts(run: seq<State>, steps: seq<Step>, i: nat, k: nat, later: nat, t: nat, b: nat)
    requires Returned(run, steps, i, k, t, CallGoal(b, ToStart)) && k <= later < |run|
    ensures || (b < |run[later].boxes| && run[later].boxes[b].starts == 1)
            || exists j :: i < j < k && b < |run[j].boxes| && run[j].boxes[b].life == Closed
  {
    CallDoesItsWork(run, steps, i, k, t, b, ToStart);
    var j :| i < j < k && DoesWork(run[j], steps[j], t, b, ToStart);
    RunInv(run, steps, j);
    StartMeans(run[j], steps[j], t, b);
    if run[j].boxes[b].starts == 1 {
      StartedForGood(run, steps, j, later, b);
      RunInv(run, steps, later);
      StartsOnce(run[later], b);
    }
  }

  // ---------------------------------------------------------------- SetAsMain

  /** In this step the instance is the main one, without a server, and gets one if that can be
      started. */
  predicate BecomesMain(s: State, e: Step, u: State, b: nat) {
    && e.Advance? && s.main == Some(b) == u.main && s.server == None
    && u.server == if e.ok then Some(Server(s.started, b)) else None
  }

  lemma ServingMakesMain(s: State, e: Step, t: nat, b: nat)
    requires Inv(s) && Enabled(s, e) && DoesWork(s, e, t, b, ToBeMain) && s.boxes[b].life != Closed
    ensures BecomesMain(s, e, Apply(s, e), b)
  {
    assert ThreadOk(s, t);
  }

  /** A call of SetAsMain makes its instance the main one, and gives it a new server if one can be
      started, before it returns; or it finds the instance closed. */
  lemma SetAsMainSets(run: seq<State>, steps: seq<Step>, i: nat, k: nat, t: nat, b: nat)
    requires Returned(run, steps, i, k, t, CallGoal(b, ToBeMain))
    ensures exists j :: i < j < k && steps[j].Advance? && steps[j].t == t && b < |run[j].boxes|
                     && (run[j].boxes[b].life == Closed || BecomesMain(run[j], steps[j], run[j + 1], b))
  {
    CallDoesItsWork(run, steps, i, k, t, b, ToBeMain);
    var j :| i < j < k && DoesWork(run[j], steps[j], t, b, ToBeMain);
    RunInv(run, steps, j);
    assert run[j + 1] == Apply(run[j], steps[j]);
    if run[j].boxes[b].life != Closed { ServingMakesMain(run[j], steps[j], t, b); }
  }

  // ---------------------------------------------------------------- ResetAllConnections

  /** Thread t reads the main slot in this step. */
  predicate ReadsMain(s: State, e: Step, t: nat, main: Option<nat>) {
    e.Advance? && e.t == t && t < |s.threads| && s.threads[t] == Reading && s.main == main
  }

  predicate BeforeReading(pc: Pc) {
    pc.Selecting? || pc.WantRead? || pc.Reading?
  }

  lemma ReadsOn(s: State, e: Step, t: nat)
    requires Enabled(s, e) && t < |s.threads| && BeforeReading(s.threads[t])
    ensures var u := Apply(s, e);
            && t < |u.threads|
            && (|| BeforeReading(u.threads[t])
                || ReadsMain(s, e, t, None)
                || (s.main.Some? && ReadsMain(s, e, t, s.main) && u.threads[t] == Locking(s.main.value, ToUse)))
  {
    if !e.Create? && e.t != t { OthersStand(s, e, t); }
  }

  /** Thread t has read, at j, that m is the main instance, and goes for its lock. */
  predicate FoundMain(run: seq<State>, steps: seq<Step>, j: nat, t: nat, m: nat)
    requires j < |steps| < |run|
  {
    && ReadsMain(run[j], steps[j], t, Some(m))
    && t < |run[j + 1].threads| && run[j + 1].threads[t] == Locking(m, ToUse)
  }

  lemma {:induction false} ReadStage(run: seq<State>, steps: seq<Step>, i: nat, k: nat, t: nat)
    requires IsRun(run, steps) && i < k < |run|
    requires t < |run[i + 1].threads| && BeforeReading(run[i + 1].threads[t])
    ensures || (t < |run[k].threads| && BeforeReading(run[k].threads[t]))
            || (exists j :: i < j < k && ReadsMain(run[j], steps[j], t, None))
            || exists j, m :: i < j < k && FoundMain(run, steps, j, t, m)
  {
    if k > i + 1 {
      ReadStage(run, steps, i, k - 1, t);
      var s, e := run[k - 1], steps[k - 1];
      assert run[k] == Apply(s, e);
      if t < |s.threads| && BeforeReading(s.threads[t]) {
        ReadsOn(s, e, t);
        if s.main.Some? && ReadsMain(s, e, t, s.main) { assert FoundMain(run, steps, k - 1, t, s.main.value); }
      }
    }
  }

  /** A reset of all connections, on its own or from the callback of SelectOutbound, has read
      before it returns that there is no main instance; or it has read which one it is, and then
      has used it or found it closed. */
  lemma ResetReachesMain(run: seq<State>, steps: seq<Step>, i: nat, k: nat, t: nat, call: Call)
    requires Returned(run, steps, i, k, t, call) && !call.CallGoal?
    ensures || (exists j :: i < j < k && ReadsMain(run[j], steps[j], t, None))
            || exists j, m :: i < j < k && ReadsMain(run[j], steps[j], t, Some(m)) &&
                              WorkDone(run, steps, j, k, t, m, ToUse)
  {
    assert run[i + 1] == Apply(run[i], steps[i]);
    ReadStage(run, steps, i, k, t);
    if j, m :| i < j < k && FoundMain(run, steps, j, t, m) {
      CallStage(run, steps, j, k, t, m, ToUse, j + 1);
    }
  }
}
