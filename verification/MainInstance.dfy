/** The two-lock protocol of libcore/box.go and libcore/protect.go: any number of threads work
    on any number of box instances, one of which may be the main one and have a protect
    server. */
module MainInstance {
  import opened Common

  datatype Life = New | Started | Closed

  /** An instance: its state, who holds its access lock, how often its box was started and closed,
      and whether the start returned an error. A start that fails closes the box, and leaves the
      instance Started. */
  datatype Box = Box(life: Life, holder: Option<nat>, starts: nat, teardowns: nat, failed: bool)

  const NEW_BOX := Box(New, None, 0, 0, false)

  /** A protect server, and the instance that was made main when it was started. */
  datatype Server = Server(id: nat, owner: nat)

  datatype Goal = ToStart | ToClose | ToBeMain | ToUse

  /** Where a thread is. Locking waits for an instance's access lock, WantMain and WantRead for
      the main-instance lock; the states from Locked to Leaving hold the access lock. */
  datatype Pc =
    | Idle
    | Selecting(b: nat)
    | WantRead
    | Reading
    | Locking(b: nat, goal: Goal)
    | Locked(b: nat, goal: Goal)
    | Starting(b: nat)
    | Using(b: nat)
    | WantMain(b: nat, closing: bool)
    | HoldMain(b: nat, closing: bool)
    | Stopping(b: nat, closing: bool)
    | Serving(b: nat)
    | Tearing(b: nat)
    | Leaving(b: nat)

  datatype State = State(
    boxes: seq<Box>,
    threads: seq<Pc>,
    mainLock: Option<nat>,
    main: Option<nat>,
    server: Option<Server>,
    /** How many protect servers were started, and which were closed, in order. */
    started: nat,
    stopped: seq<nat>
  )

  datatype Call = CallGoal(b: nat, goal: Goal) | CallSelect(b: nat) | CallResetAll

  /** A new instance, a new call on an idle thread, or a thread going on; ok is the outcome of
      whatever can fail there. */
  datatype Step = Create | Begin(t: nat, call: Call) | Advance(t: nat, ok: bool)

  function Start(threads: nat): State {
    State([], seq(threads, _ => Idle), None, None, None, 0, [])
  }

  predicate Blocked(s: State, pc: Pc) {
    match pc
    case Locking(b, _) => b < |s.boxes| && s.boxes[b].holder != None
    case WantMain(_, _) => s.mainLock != None
    case WantRead => s.mainLock != None
    case _ => false
  }

  predicate Enabled(s: State, e: Step) {
    match e
    case Create => true
    case Begin(t, call) =>
      t < |s.threads| && s.threads[t] == Idle && (call.CallResetAll? || call.b < |s.boxes|)
    case Advance(t, _) =>
      && t < |s.threads| && s.threads[t] != Idle && !Blocked(s, s.threads[t])
      && (HasBox(s.threads[t]) ==> s.threads[t].b < |s.boxes|)
  }

  function FirstPc(call: Call): Pc {
    match call
    case CallGoal(b, goal) => Locking(b, goal)
    case CallSelect(b) => Selecting(b)
    case CallResetAll => WantRead
  }

  function SetBox(s: State, b: nat, box: Box): State
    requires b < |s.boxes|
  {
    s.(boxes := s.boxes[b := box])
  }

  function Go(s: State, t: nat, pc: Pc): State
    requires t < |s.threads|
  {
    s.(threads := s.threads[t := pc])
  }

  /** What a thread does with the access lock held, as its first look at the instance decides:
      lockIfOpen for most calls, the checks of Start and Close for the others. */
  function Decide(s: State, t: nat, b: nat, goal: Goal): State
    requires t < |s.threads| && b < |s.boxes|
  {
    var box := s.boxes[b];
    match goal
    case ToStart =>
      if box.life == New then Go(SetBox(s, b, box.(life := Started, starts := box.starts + 1)), t, Starting(b))
      else Go(s, t, Leaving(b))
    case ToClose =>
      if box.life == Closed then Go(s, t, Leaving(b))
      else Go(SetBox(s, b, box.(life := Closed)), t, WantMain(b, true))
    case ToBeMain => Go(s, t, if box.life == Closed then Leaving(b) else WantMain(b, false))
    case ToUse => Go(s, t, if box.life == Closed then Leaving(b) else Using(b))
  }

  /** Close drops the main instance when it is the one; SetAsMain replaces it. */
  function ChangeMain(s: State, t: nat, b: nat, closing: bool): State
    requires t < |s.threads|
  {
    if !closing then Go(s.(main := Some(b)), t, Stopping(b, false))
    else if s.main == Some(b) then Go(s.(main := None), t, Stopping(b, true))
    else Go(s.(mainLock := None), t, Tearing(b))
  }

  /** goServeProtect closes the server there is. */
  function StopServer(s: State, t: nat, b: nat, closing: bool): State
    requires t < |s.threads|
  {
    var u := if s.server.Some? then s.(server := None, stopped := s.stopped + [s.server.value.id]) else s;
    if closing then Go(u.(mainLock := None), t, Tearing(b)) else Go(u, t, Serving(b))
  }

  /** goServeProtect starts a server, which may fail. */
  function StartServer(s: State, t: nat, b: nat, ok: bool): State
    requires t < |s.threads|
  {
    var u := if ok then s.(server := Some(Server(s.started, b)), started := s.started + 1) else s;
    Go(u.(mainLock := None), t, Leaving(b))
  }

  /** Box.Start returns; when it fails it has closed the box. */
  function FinishStart(s: State, t: nat, b: nat, ok: bool): State
    requires t < |s.threads| && b < |s.boxes|
  {
    var box := s.boxes[b];
    var u := if ok then s else SetBox(s, b, box.(teardowns := box.teardowns + 1, failed := true));
    Go(u, t, Leaving(b))
  }

  function Next(s: State, t: nat, ok: bool): State
    requires t < |s.threads| && (HasBox(s.threads[t]) ==> s.threads[t].b < |s.boxes|)
  {
    match s.threads[t]
    case Idle => s
    case Selecting(_) => Go(s, t, WantRead)
    case WantRead => Go(s.(mainLock := Some(t)), t, Reading)
    case Reading => Go(s.(mainLock := None), t, if s.main.Some? then Locking(s.main.value, ToUse) else Idle)
    case Locking(b, goal) => Go(SetBox(s, b, s.boxes[b].(holder := Some(t))), t, Locked(b, goal))
    case Locked(b, goal) => Decide(s, t, b, goal)
    case Starting(b) => FinishStart(s, t, b, ok)
    case Using(b) => Go(s, t, Leaving(b))
    case WantMain(b, closing) => Go(s.(mainLock := Some(t)), t, HoldMain(b, closing))
    case HoldMain(b, closing) => ChangeMain(s, t, b, closing)
    case Stopping(b, closing) => StopServer(s, t, b, closing)
    case Serving(b) => StartServer(s, t, b, ok)
    case Tearing(b) => Go(SetBox(s, b, s.boxes[b].(teardowns := s.boxes[b].teardowns + 1)), t, Leaving(b))
    case Leaving(b) => Go(SetBox(s, b, s.boxes[b].(holder := None)), t, Idle)
  }

  function Apply(s: State, e: Step): State
    requires Enabled(s, e)
  {
    match e
    case Create => s.(boxes := s.boxes + [NEW_BOX])
    case Begin(t, call) => Go(s, t, FirstPc(call))
    case Advance(t, ok) => Next(s, t, ok)
  }

  // ---------------------------------------------------------------- what every step keeps

  predicate HasBox(pc: Pc) {
    !pc.Idle? && !pc.WantRead? && !pc.Reading?
  }

  predicate HoldsAccess(pc: Pc) {
    HasBox(pc) && !pc.Selecting? && !pc.Locking?
  }

  predicate HoldsMain(pc: Pc) {
    pc.Reading? || pc.HoldMain? || pc.Stopping? || pc.Serving?
  }

  /** A thread between the decision to close its instance and the end of the teardown. */
  predicate ClosingBox(pc: Pc) {
    (pc.WantMain? && pc.closing) || (pc.HoldMain? && pc.closing) || (pc.Stopping? && pc.closing) || pc.Tearing?
  }

  /** A thread that has decided to close its instance but has not looked at the main slot yet. */
  predicate BeforeClear(pc: Pc) {
    (pc.WantMain? && pc.closing) || (pc.HoldMain? && pc.closing)
  }

  /** A thread with work on an open instance. */
  predicate NeedsOpen(pc: Pc) {
    pc.Starting? || pc.Using? || (pc.WantMain? && !pc.closing) || (pc.HoldMain? && !pc.closing)
    || (pc.Stopping? && !pc.closing) || pc.Serving?
  }

  predicate ThreadOk(s: State, t: nat)
    requires t < |s.threads|
  {
    var pc := s.threads[t];
    && (HasBox(pc) ==> pc.b < |s.boxes|)
    && (HoldsAccess(pc) ==> s.boxes[pc.b].holder == Some(t))
    && (HoldsMain(pc) ==> s.mainLock == Some(t))
    && (NeedsOpen(pc) ==> s.boxes[pc.b].life != Closed)
    && (pc.Starting? ==> s.boxes[pc.b].life == Started && !s.boxes[pc.b].failed)
    && (ClosingBox(pc) ==> s.boxes[pc.b].life == Closed)
    && (pc.Stopping? ==> s.main == if pc.closing then None else Some(pc.b))
    && (pc.Serving? ==> s.main == Some(pc.b) && s.server == None)
    && (pc.Tearing? ==> s.main != Some(pc.b))
  }

  /** The thread that holds an instance's lock, or an idle one. */
  function HolderPc(s: State, b: nat): Pc
    requires b < |s.boxes|
  {
    var holder := s.boxes[b].holder;
    if holder.Some? && holder.value < |s.threads| then s.threads[holder.value] else Idle
  }

  predicate BoxOk(s: State, b: nat)
    requires b < |s.boxes|
  {
    var box, pc := s.boxes[b], HolderPc(s, b);
    && (box.holder.Some? ==> HoldsAccess(pc) && pc.b == b)
    && box.starts <= 1 && (box.life == New ==> box.starts == 0) && (box.life == Started ==> box.starts == 1)
    && (box.failed ==> box.starts == 1)
    && box.teardowns == (if box.failed then 1 else 0) + (if box.life == Closed && !ClosingBox(pc) then 1 else 0)
    && (s.main == Some(b) && box.life == Closed ==> BeforeClear(pc))
  }

  /** The thread that holds the main-instance lock, or an idle one. */
  function MainPc(s: State): Pc {
    if s.mainLock.Some? && s.mainLock.value < |s.threads| then s.threads[s.mainLock.value] else Idle
  }

  /** The servers closed and the one there is, in order. */
  function Accounted(s: State): seq<nat> {
    s.stopped + if s.server.Some? then [s.server.value.id] else []
  }

  predicate ServerOk(s: State) {
    && (s.mainLock.Some? ==> HoldsMain(MainPc(s)))
    && Accounted(s) == seq(s.started, k requires 0 <= k => k)
    && (s.server.Some? && s.main != Some(s.server.value.owner) ==> MainPc(s).Stopping?)
  }

  predicate Inv(s: State) {
    && (forall t :: 0 <= t < |s.threads| ==> ThreadOk(s, t))
    && (forall b :: 0 <= b < |s.boxes| ==> BoxOk(s, b))
    && (s.main.Some? ==> s.main.value < |s.boxes|)
    && ServerOk(s)
  }

  /** A step of thread t leaves the other threads alone: it changes only instances nobody else
      has locked, and the main slot only under its lock. */
  predicate StaysAside(s: State, u: State, t: nat)
    requires t < |s.threads|
  {
    var pc := s.threads[t];
    && |u.threads| == |s.threads| && |u.boxes| == |s.boxes|
    && (forall k :: 0 <= k < |s.threads| && k != t ==> u.threads[k] == s.threads[k])
    && (forall b :: 0 <= b < |s.boxes| && !(HasBox(pc) && pc.b == b) ==> u.boxes[b] == s.boxes[b])
    && (HasBox(pc) && pc.b < |s.boxes| && u.boxes[pc.b] != s.boxes[pc.b] ==>
          s.boxes[pc.b].holder == None || s.boxes[pc.b].holder == Some(t))
    && (s.mainLock.Some? && s.mainLock.value != t ==>
          u.mainLock == s.mainLock && u.main == s.main && u.server == s.server)
    && (u.main.Some? && u.main != s.main ==> HoldsAccess(pc) && u.main.value == pc.b)
  }

  lemma OtherThreadKept(s: State, u: State, t: nat, k: nat)
    requires Inv(s) && t < |s.threads| && k < |s.threads| && k != t && StaysAside(s, u, t)
    ensures ThreadOk(u, k)
  {
    assert ThreadOk(s, k) && ThreadOk(s, t);
  }

  lemma OtherBoxKept(s: State, u: State, t: nat, b: nat)
    requires Inv(s) && t < |s.threads| && b < |s.boxes| && StaysAside(s, u, t)
    requires !(HasBox(s.threads[t]) && s.threads[t].b == b)
    ensures BoxOk(u, b)
  {
    assert BoxOk(s, b) && ThreadOk(s, t);
    assert HolderPc(u, b) == HolderPc(s, b);
  }

  lemma KeepInv(s: State, u: State, t: nat)
    requires Inv(s) && t < |s.threads| && StaysAside(s, u, t)
    requires ThreadOk(u, t) && ServerOk(u) && (u.main.Some? ==> u.main.value < |u.boxes|)
    requires HasBox(s.threads[t]) && s.threads[t].b < |u.boxes| ==> BoxOk(u, s.threads[t].b)
    ensures Inv(u)
  {
    forall k | 0 <= k < |u.threads| ensures ThreadOk(u, k) {
      if k != t { OtherThreadKept(s, u, t, k); }
    }
    forall b | 0 <= b < |u.boxes| ensures BoxOk(u, b) {
      if !(HasBox(s.threads[t]) && s.threads[t].b == b) { OtherBoxKept(s, u, t, b); }
    }
  }

  lemma LookKeepsInv(s: State, t: nat, ok: bool)
    requires Inv(s) && Enabled(s, Advance(t, ok))
    requires (s.threads[t].Selecting? || s.threads[t].WantRead? || s.threads[t].Reading?)
    ensures Inv(Next(s, t, ok))
  {
    var pc, u := s.threads[t], Next(s, t, ok);
    assert ThreadOk(s, t);
    if HasBox(pc) { assert BoxOk(s, pc.b); }
    KeepInv(s, u, t);
  }

  lemma LockKeepsInv(s: State, t: nat, ok: bool)
    requires Inv(s) && Enabled(s, Advance(t, ok)) && s.threads[t].Locking?
    ensures Inv(Next(s, t, ok))
  {
    var pc, u := s.threads[t], Next(s, t, ok);
    assert ThreadOk(s, t);
    if HasBox(pc) { assert BoxOk(s, pc.b); }
    KeepInv(s, u, t);
  }

  lemma DecideToStart(s: State, t: nat, ok: bool)
    requires Inv(s) && Enabled(s, Advance(t, ok)) && s.threads[t].Locked? && s.threads[t].goal == ToStart
    ensures Inv(Next(s, t, ok))
  {
    var pc, u := s.threads[t], Next(s, t, ok);
    assert ThreadOk(s, t);
    if HasBox(pc) { assert BoxOk(s, pc.b); }
    KeepInv(s, u, t);
  }

  lemma DecideToClose(s: State, t: nat, ok: bool)
    requires Inv(s) && Enabled(s, Advance(t, ok)) && s.threads[t].Locked? && s.threads[t].goal == ToClose
    ensures Inv(Next(s, t, ok))
  {
    var pc, u := s.threads[t], Next(s, t, ok);
    assert ThreadOk(s, t);
    if HasBox(pc) { assert BoxOk(s, pc.b); }
    KeepInv(s, u, t);
  }

  lemma DecideToUse(s: State, t: nat, ok: bool)
    requires Inv(s) && Enabled(s, Advance(t, ok))
    requires s.threads[t].Locked? && (s.threads[t].goal == ToBeMain || s.threads[t].goal == ToUse)
    ensures Inv(Next(s, t, ok))
  {
    var pc, u := s.threads[t], Next(s, t, ok);
    assert ThreadOk(s, t);
    if HasBox(pc) { assert BoxOk(s, pc.b); }
    KeepInv(s, u, t);
  }

  lemma WorkKeepsInv(s: State, t: nat, ok: bool)
    requires Inv(s) && Enabled(s, Advance(t, ok))
    requires (s.threads[t].Starting? || s.threads[t].Using? || s.threads[t].Tearing?)
    ensures Inv(Next(s, t, ok))
  {
    var pc, u := s.threads[t], Next(s, t, ok);
    assert ThreadOk(s, t);
    if HasBox(pc) { assert BoxOk(s, pc.b); }
    KeepInv(s, u, t);
  }

  lemma TakeMainKeepsInv(s: State, t: nat, ok: bool)
    requires Inv(s) && Enabled(s, Advance(t, ok)) && s.threads[t].WantMain?
    ensures Inv(Next(s, t, ok))
  {
    var pc, u := s.threads[t], Next(s, t, ok);
    assert ThreadOk(s, t);
    if HasBox(pc) { assert BoxOk(s, pc.b); }
    KeepInv(s, u, t);
  }

  lemma ChangeMainKeepsInv(s: State, t: nat, ok: bool)
    requires Inv(s) && Enabled(s, Advance(t, ok)) && s.threads[t].HoldMain?
    ensures Inv(Next(s, t, ok))
  {
    var pc, u := s.threads[t], Next(s, t, ok);
    assert ThreadOk(s, t);
    if HasBox(pc) { assert BoxOk(s, pc.b); }
    KeepInv(s, u, t);
  }

  lemma StopServerKeepsInv(s: State, t: nat, ok: bool)
    requires Inv(s) && Enabled(s, Advance(t, ok)) && s.threads[t].Stopping?
    ensures Inv(Next(s, t, ok))
  {
    var pc, u := s.threads[t], Next(s, t, ok);
    assert ThreadOk(s, t);
    if HasBox(pc) { assert BoxOk(s, pc.b); }
    KeepInv(s, u, t);
  }

  lemma StartServerKeepsInv(s: State, t: nat, ok: bool)
    requires Inv(s) && Enabled(s, Advance(t, ok)) && s.threads[t].Serving?
    ensures Inv(Next(s, t, ok))
  {
    var pc, u := s.threads[t], Next(s, t, ok);
    assert ThreadOk(s, t);
    if HasBox(pc) { assert BoxOk(s, pc.b); }
    assert Accounted(s) == s.stopped;
    assert Accounted(u) == seq(u.started, k requires 0 <= k => k);
    KeepInv(s, u, t);
  }

  lemma LeaveKeepsInv(s: State, t: nat, ok: bool)
    requires Inv(s) && Enabled(s, Advance(t, ok)) && s.threads[t].Leaving?
    ensures Inv(Next(s, t, ok))
  {
    var pc, u := s.threads[t], Next(s, t, ok);
    assert ThreadOk(s, t);
    if HasBox(pc) { assert BoxOk(s, pc.b); }
    KeepInv(s, u, t);
  }

  lemma AdvanceKeepsInv(s: State, t: nat, ok: bool)
    requires Inv(s) && Enabled(s, Advance(t, ok))
    ensures Inv(Next(s, t, ok))
  {
    var pc := s.threads[t];
    if pc.Selecting? || pc.WantRead? || pc.Reading? {
      LookKeepsInv(s, t, ok);
    } else if pc.Locking? {
      LockKeepsInv(s, t, ok);
    } else if pc.Locked? {
      match pc.goal
      case ToStart => DecideToStart(s, t, ok);
      case ToClose => DecideToClose(s, t, ok);
      case ToBeMain => DecideToUse(s, t, ok);
      case ToUse => DecideToUse(s, t, ok);
    } else if pc.Starting? || pc.Using? || pc.Tearing? {
      WorkKeepsInv(s, t, ok);
    } else if pc.WantMain? {
      TakeMainKeepsInv(s, t, ok);
    } else if pc.HoldMain? {
      ChangeMainKeepsInv(s, t, ok);
    } else if pc.Stopping? {
      StopServerKeepsInv(s, t, ok);
    } else if pc.Serving? {
      StartServerKeepsInv(s, t, ok);
    } else if pc.Leaving? {
      LeaveKeepsInv(s, t, ok);
    }
  }

  lemma CreateKeepsInv(s: State)
    requires Inv(s)
    ensures Inv(Apply(s, Create))
  {
    var u := Apply(s, Create);
    forall t | 0 <= t < |u.threads| ensures ThreadOk(u, t) {
      assert ThreadOk(s, t);
    }
    forall b | 0 <= b < |u.boxes| ensures BoxOk(u, b) {
      if b < |s.boxes| { assert BoxOk(s, b); }
    }
  }

  lemma StepKeepsInv(s: State, e: Step)
    requires Inv(s) && Enabled(s, e)
    ensures Inv(Apply(s, e))
  {
    match e
    case Create => CreateKeepsInv(s);
    case Begin(t, call) => KeepInv(s, Apply(s, e), t);
    case Advance(t, ok) => AdvanceKeepsInv(s, t, ok);
  }

  ghost predicate IsPath(run: seq<State>, steps: seq<Step>) {
    && |run| == |steps| + 1
    && forall k :: 0 <= k < |steps| ==> Enabled(run[k], steps[k]) && run[k + 1] == Apply(run[k], steps[k])
  }

  /** A run of some number of threads from the start of the process. */
  ghost predicate IsRun(run: seq<State>, steps: seq<Step>) {
    IsPath(run, steps) && run[0] == Start(|run[0].threads|)
  }

  lemma {:induction false} RunInv(run: seq<State>, steps: seq<Step>, k: nat)
    requires IsRun(run, steps) && k < |run|
    ensures Inv(run[k])
  {
    if k > 0 {
      RunInv(run, steps, k - 1);
      StepKeepsInv(run[k - 1], steps[k - 1]);
    }
  }

  // ---------------------------------------------------------------- main results

  /** The step in which the start of a box returns an error. */
  predicate StartFails(s: State, e: Step, b: nat) {
    e.Advance? && e.t < |s.threads| && s.threads[e.t] == Starting(b) && !e.ok
  }

  lemma FailedStep(s: State, e: Step, b: nat)
    requires Enabled(s, e) && b < |s.boxes|
    ensures b < |Apply(s, e).boxes|
    ensures Apply(s, e).boxes[b].failed <==> s.boxes[b].failed || StartFails(s, e, b)
  {
  }

  /** What `failed` records: the box's start has returned an error. */
  lemma {:induction false} FailedIffStartFailed(run: seq<State>, steps: seq<Step>, k: nat, b: nat)
    requires IsRun(run, steps) && k < |run| && b < |run[k].boxes|
    ensures run[k].boxes[b].failed <==> exists j :: 0 <= j < k && StartFails(run[j], steps[j], b)
  {
    if k > 0 {
      var s, e := run[k - 1], steps[k - 1];
      assert run[k] == Apply(s, e);
      if b < |s.boxes| {
        FailedIffStartFailed(run, steps, k - 1, b);
        FailedStep(s, e, b);
      } else {
        assert run[k].boxes[b] == NEW_BOX;
        forall j | 0 <= j < k ensures !StartFails(run[j], steps[j], b) {
          RunInv(run, steps, j);
          BoxesStay(run, steps, j, k - 1);
          if steps[j].Advance? { assert ThreadOk(run[j], steps[j].t); }
        }
      }
    }
  }

  lemma {:induction false} BoxesStay(run: seq<State>, steps: seq<Step>, j: nat, k: nat)
    requires IsRun(run, steps) && j <= k < |run|
    ensures |run[j].boxes| <= |run[k].boxes|
  {
    if j < k {
      BoxesStay(run, steps, j, k - 1);
      assert run[k] == Apply(run[k - 1], steps[k - 1]);
    }
  }

  /** At every moment of every run: guarded work, and the start of a box, happen on an instance
      that is not closed, one thread at a time; and its box has not been torn down exactly if its
      start has not returned an error. */
  lemma GuardedWork(run: seq<State>, steps: seq<Step>, k: nat, t: nat)
    requires IsRun(run, steps) && k < |run| && t < |run[k].threads| && NeedsOpen(run[k].threads[t])
    ensures var s := run[k];
            var b := s.threads[t].b;
            && b < |s.boxes| && s.boxes[b].life != Closed
            && (s.boxes[b].teardowns == 0 <==> !exists j :: 0 <= j < k && StartFails(run[j], steps[j], b))
            && (s.threads[t].Starting? ==> s.boxes[b].teardowns == 0)
            && forall v :: 0 <= v < |s.threads| && HoldsAccess(s.threads[v]) && s.threads[v].b == b ==> v == t
  {
    RunInv(run, steps, k);
    var s := run[k];
    assert ThreadOk(s, t);
    assert BoxOk(s, s.threads[t].b);
    FailedIffStartFailed(run, steps, k, s.threads[t].b);
    forall v | 0 <= v < |s.threads| && HoldsAccess(s.threads[v]) && s.threads[v].b == s.threads[t].b ensures v == t {
      assert ThreadOk(s, v);
    }
  }

  /** A closed main instance is one whose closer still holds its lock and is about to clear the
      slot; once nobody holds a closed instance's lock it is not the main one, and its box has
      been closed once, and once more if its start failed. A box starts at most once. */
  lemma ClosedIsNotMain(run: seq<State>, steps: seq<Step>, k: nat, b: nat)
    requires IsRun(run, steps) && k < |run| && b < |run[k].boxes| && run[k].boxes[b].life == Closed
    ensures var s := run[k];
            var failures := if s.boxes[b].failed then 1 else 0;
            && (s.main == Some(b) ==> BeforeClear(HolderPc(s, b)) && HolderPc(s, b).b == b)
            && (s.boxes[b].holder == None ==> s.main != Some(b) && s.boxes[b].teardowns == 1 + failures)
            && failures <= s.boxes[b].teardowns <= 1 + failures && s.boxes[b].starts <= 1
  {
    RunInv(run, steps, k);
    assert BoxOk(run[k], b);
  }

  /** Every protect server started has been closed once, in order, but for the one there is; and
      outside the sections under the main-instance lock that one belongs to the main instance. */
  lemma ServerBelongsToMain(run: seq<State>, steps: seq<Step>, k: nat)
    requires IsRun(run, steps) && k < |run|
    ensures var s := run[k];
            && s.stopped + (if s.server.Some? then [s.server.value.id] else []) ==
               seq(s.started, i requires 0 <= i => i)
            && (s.server.Some? && s.mainLock == None ==> s.main == Some(s.server.value.owner))
  {
    RunInv(run, steps, k);
  }

  predicate AllIdle(threads: seq<Pc>) {
    forall t :: 0 <= t < |threads| ==> threads[t] == Idle
  }

  /** The thread to look at: one with the main-instance lock, else one with an access lock, else
      any that is not idle. */
  lemma NeverStuck(s: State) returns (t: nat)
    requires Inv(s) && !AllIdle(s.threads)
    ensures t < |s.threads| && forall ok :: Enabled(s, Advance(t, ok))
  {
    if s.mainLock.Some? {
      t := s.mainLock.value;
    } else if b :| 0 <= b < |s.boxes| && s.boxes[b].holder.Some? {
      assert BoxOk(s, b);
      t := s.boxes[b].holder.value;
    } else {
      t :| t < |s.threads| && s.threads[t] != Idle;
    }
    assert ThreadOk(s, t);
  }

  /** What is left of a call. */
  function Work(pc: Pc): nat {
    match pc
    case Idle => 0
    case Leaving(_) => 1
    case Starting(_) => 2
    case Using(_) => 2
    case Tearing(_) => 2
    case Serving(_) => 2
    case Stopping(_, _) => 3
    case HoldMain(_, _) => 4
    case WantMain(_, _) => 5
    case Locked(_, _) => 6
    case Locking(_, _) => 7
    case Reading => 8
    case WantRead => 9
    case Selecting(_) => 10
  }

  function TotalWork(threads: seq<Pc>): nat {
    if threads == [] then 0 else TotalWork(threads[..|threads| - 1]) + Work(threads[|threads| - 1])
  }

  lemma {:induction false} TotalWorkAt(threads: seq<Pc>, t: nat, pc: Pc)
    requires t < |threads|
    ensures TotalWork(threads[t := pc]) == TotalWork(threads) - Work(threads[t]) + Work(pc)
  {
    var n := |threads| - 1;
    if t < n {
      assert threads[t := pc][..n] == threads[..n][t := pc];
      TotalWorkAt(threads[..n], t, pc);
    } else {
      assert threads[t := pc][..n] == threads[..n];
    }
  }

  lemma {:induction false} IdleHasNoWork(n: nat)
    ensures TotalWork(seq(n, _ => Idle)) == 0
  {
    if n > 0 {
      IdleHasNoWork(n - 1);
      assert seq(n, _ => Idle)[..n - 1] == seq(n - 1, _ => Idle);
    }
  }

  lemma AdvanceWorks(s: State, t: nat, ok: bool) returns (pc: Pc)
    requires Enabled(s, Advance(t, ok))
    ensures Next(s, t, ok).threads == s.threads[t := pc] && Work(pc) < Work(s.threads[t])
  {
    pc := Next(s, t, ok).threads[t];
  }

  lemma WorkDrops(s: State, e: Step)
    requires Enabled(s, e)
    ensures e.Advance? ==> TotalWork(Apply(s, e).threads) < TotalWork(s.threads)
    ensures e.Begin? ==> TotalWork(Apply(s, e).threads) <= TotalWork(s.threads) + 10
    ensures e.Create? ==> TotalWork(Apply(s, e).threads) == TotalWork(s.threads)
  {
    if e.Advance? {
      var pc := AdvanceWorks(s, e.t, e.ok);
      TotalWorkAt(s.threads, e.t, pc);
    } else if e.Begin? {
      TotalWorkAt(s.threads, e.t, FirstPc(e.call));
    }
  }

  /** The calls made, and the instances created, in a run. */
  function Requests(steps: seq<Step>): nat {
    if steps == [] then 0
    else Requests(steps[..|steps| - 1]) + if steps[|steps| - 1].Advance? then 0 else 1
  }

  lemma {:induction false} StepsAreBounded(run: seq<State>, steps: seq<Step>)
    requires IsRun(run, steps)
    ensures |steps| + TotalWork(run[|steps|].threads) <= 11 * Requests(steps)
  {
    if steps == [] {
      IdleHasNoWork(|run[0].threads|);
    } else {
      var n := |steps| - 1;
      assert IsRun(run[..n + 1], steps[..n]);
      StepsAreBounded(run[..n + 1], steps[..n]);
      assert run[n + 1] == Apply(run[n], steps[n]);
      WorkDrops(run[n], steps[n]);
    }
  }

  /** No deadlock, whatever the threads call and however their steps interleave, the callback of
      SelectOutbound included: a run takes at most eleven steps a call, and as long as a thread
      is inside a call, some thread can go on. */
  lemma EveryCallReturns(run: seq<State>, steps: seq<Step>)
    requires IsRun(run, steps)
    ensures |steps| <= 11 * Requests(steps)
    ensures AllIdle(run[|steps|].threads) || exists t, ok :: Enabled(run[|steps|], Advance(t, ok))
  {
    StepsAreBounded(run, steps);
    RunInv(run, steps, |steps|);
    if !AllIdle(run[|steps|].threads) {
      var t := NeverStuck(run[|steps|]);
      assert Enabled(run[|steps|], Advance(t, true));
    }
  }

  /** A thread waits for an access lock it holds itself; the locks of the others are in order. */
  predicate WaitsForItself(s: State, t: nat) {
    && t < |s.threads| && s.threads[t].Locking?
    && s.threads[t].b < |s.boxes| && s.boxes[s.threads[t].b].holder == Some(t)
    && forall k :: 0 <= k < |s.threads| && k != t && HoldsAccess(s.threads[k]) ==>
         s.threads[k].b < |s.boxes| && s.boxes[s.threads[k].b].holder == Some(k)
  }

  /** The lock discipline of one thread: it changes an instance it holds or takes. */
  lemma AdvanceIsDisciplined(s: State, k: nat, ok: bool)
    requires Enabled(s, Advance(k, ok))
    requires HoldsAccess(s.threads[k]) ==> s.boxes[s.threads[k].b].holder == Some(k)
    ensures var u := Next(s, k, ok);
            var pc := s.threads[k];
            && |u.threads| == |s.threads| && |u.boxes| == |s.boxes|
            && (forall b :: 0 <= b < |s.boxes| && s.boxes[b].holder.Some? && s.boxes[b].holder.value != k ==>
                  u.boxes[b] == s.boxes[b])
            && (HoldsAccess(u.threads[k]) ==>
                  u.threads[k].b < |u.boxes| && u.boxes[u.threads[k].b].holder == Some(k))
  {
    var pc := s.threads[k];
    if pc.Locking? {
      assert s.boxes[pc.b].holder == None;
    }
  }

  lemma AdvanceStillWaits(s: State, t: nat, k: nat, ok: bool)
    requires WaitsForItself(s, t) && Enabled(s, Advance(k, ok))
    ensures WaitsForItself(Next(s, k, ok), t) && Next(s, k, ok).threads[t] == s.threads[t]
  {
    var u := Next(s, k, ok);
    assert k != t;
    AdvanceIsDisciplined(s, k, ok);
    assert forall v :: 0 <= v < |s.threads| && v != k ==> u.threads[v] == s.threads[v];
  }

  lemma StillWaits(s: State, t: nat, e: Step)
    requires WaitsForItself(s, t) && Enabled(s, e)
    ensures WaitsForItself(Apply(s, e), t) && Apply(s, e).threads[t] == s.threads[t]
  {
    if e.Advance? {
      AdvanceStillWaits(s, t, e.t, e.ok);
    } else if e.Begin? {
      assert e.t != t && Apply(s, e).boxes == s.boxes;
    }
  }

  lemma {:induction false} WaitsForEver(run: seq<State>, steps: seq<Step>, t: nat, k: nat)
    requires IsPath(run, steps) && WaitsForItself(run[0], t) && k < |run|
    ensures WaitsForItself(run[k], t) && run[k].threads[t] == run[0].threads[t]
  {
    if k > 0 {
      WaitsForEver(run, steps, t, k - 1);
      StillWaits(run[k - 1], t, steps[k - 1]);
    }
  }

  /** The callback of a SelectOutbound that held the access lock: a call that uses its instance
      enters ResetAllConnections on its own thread, the lock still held. */
  function CallBackLocked(s: State, t: nat): State
    requires t < |s.threads| && s.threads[t].Using?
  {
    Go(s, t, WantRead)
  }

  /** Where two further steps of the thread lead. */
  function AfterReading(s: State, t: nat): State
    requires t < |s.threads| && s.threads[t].Using? && s.mainLock == None
  {
    Next(Next(CallBackLocked(s, t), t, true), t, true)
  }

  /** Such a callback on the main instance asks for the lock its own thread holds. */
  lemma LockedCallbackWaitsForItself(s: State, t: nat)
    requires Inv(s) && t < |s.threads| && s.threads[t].Using? && s.main == Some(s.threads[t].b) && s.mainLock == None
    ensures var u := CallBackLocked(s, t);
            && Enabled(u, Advance(t, true)) && Enabled(Next(u, t, true), Advance(t, true))
            && WaitsForItself(AfterReading(s, t), t)
  {
    var w := AfterReading(s, t);
    assert ThreadOk(s, t);
    forall k | 0 <= k < |w.threads| && k != t && HoldsAccess(w.threads[k])
      ensures w.threads[k].b < |w.boxes| && w.boxes[w.threads[k].b].holder == Some(k)
    {
      assert ThreadOk(s, k);
    }
  }

  lemma OneMore(run: seq<State>, steps: seq<Step>, e: Step) returns (run': seq<State>, steps': seq<Step>)
    requires IsPath(run, steps) && Enabled(run[|steps|], e)
    ensures IsPath(run', steps') && run'[0] == run[0] && run'[|steps'|] == Apply(run[|steps|], e)
  {
    run', steps' := run + [Apply(run[|steps|], e)], steps + [e];
  }

  /** One thread has locked a new instance, to make it the main one. */
  lemma InstanceIsLocked() returns (run: seq<State>, steps: seq<Step>)
    ensures IsPath(run, steps) && run[0] == Start(1)
    ensures run[|steps|] == State([NEW_BOX.(holder := Some(0))], [Locked(0, ToBeMain)], None, None, None, 0, [])
  {
    run, steps := [Start(1)], [];
    assert Start(1) == State([], [Idle], None, None, None, 0, []);
    run, steps := OneMore(run, steps, Create);
    run, steps := OneMore(run, steps, Begin(0, CallGoal(0, ToBeMain)));
    run, steps := OneMore(run, steps, Advance(0, true));
  }

  lemma MainIsLocked() returns (run: seq<State>, steps: seq<Step>)
    ensures IsPath(run, steps) && run[0] == Start(1)
    ensures run[|steps|] == State([NEW_BOX.(holder := Some(0))], [HoldMain(0, false)], Some(0), None, None, 0, [])
  {
    run, steps := InstanceIsLocked();
    run, steps := OneMore(run, steps, Advance(0, true));
    run, steps := OneMore(run, steps, Advance(0, true));
  }

  lemma MainIsSet() returns (run: seq<State>, steps: seq<Step>)
    ensures IsPath(run, steps) && run[0] == Start(1)
    ensures run[|steps|] == State([NEW_BOX], [Idle], None, Some(0), None, 0, [])
  {
    run, steps := MainIsLocked();
    run, steps := OneMore(run, steps, Advance(0, true));
    run, steps := OneMore(run, steps, Advance(0, true));
    run, steps := OneMore(run, steps, Advance(0, false));
    run, steps := OneMore(run, steps, Advance(0, true));
  }

  /** It starts the instance. */
  lemma MainIsStarting() returns (run: seq<State>, steps: seq<Step>)
    ensures IsPath(run, steps) && run[0] == Start(1)
    ensures run[|steps|] == State([Box(Started, Some(0), 1, 0, false)], [Starting(0)], None, Some(0), None, 0, [])
  {
    run, steps := MainIsSet();
    run, steps := OneMore(run, steps, Begin(0, CallGoal(0, ToStart)));
    run, steps := OneMore(run, steps, Advance(0, true));
    run, steps := OneMore(run, steps, Advance(0, true));
  }

  /** The start fails. */
  lemma MainHasFailed() returns (run: seq<State>, steps: seq<Step>)
    ensures IsPath(run, steps) && run[0] == Start(1)
    ensures run[|steps|] == State([Box(Started, None, 1, 1, true)], [Idle], None, Some(0), None, 0, [])
  {
    run, steps := MainIsStarting();
    run, steps := OneMore(run, steps, Advance(0, false));
    run, steps := OneMore(run, steps, Advance(0, true));
  }

  /** Then a reset of all connections works on a box that is torn down: lockIfOpen lets it in, as
      a failed start leaves the instance started. */
  lemma ResetMeetsATornDownBox() returns (run: seq<State>, steps: seq<Step>)
    ensures IsRun(run, steps)
    ensures var s := run[|steps|];
            && s.threads == [Using(0)] && s.main == Some(0)
            && |s.boxes| == 1 && s.boxes[0].life == Started && s.boxes[0].teardowns == 1
  {
    run, steps := MainHasFailed();
    run, steps := OneMore(run, steps, Begin(0, CallResetAll));
    run, steps := OneMore(run, steps, Advance(0, true));
    run, steps := OneMore(run, steps, Advance(0, true));
    assert run[|steps|] == State([Box(Started, None, 1, 1, true)], [Locking(0, ToUse)], None, Some(0), None, 0, []);
    run, steps := OneMore(run, steps, Advance(0, true));
    run, steps := OneMore(run, steps, Advance(0, true));
  }

  /** A new main instance is used. */
  lemma MainIsUsed() returns (run: seq<State>, steps: seq<Step>)
    ensures IsRun(run, steps)
    ensures run[|steps|] == State([NEW_BOX.(holder := Some(0))], [Using(0)], None, Some(0), None, 0, [])
  {
    run, steps := MainIsSet();
    run, steps := OneMore(run, steps, Begin(0, CallGoal(0, ToUse)));
    run, steps := OneMore(run, steps, Advance(0, true));
    run, steps := OneMore(run, steps, Advance(0, true));
  }

  /** Why SelectOutbound takes no lock. From the start of the process a call on the main instance
      is reached whose callback, made with the lock held, would wait for its own thread, and would
      do so whatever every thread does from then on. */
  lemma SelectUnderLockWouldHang() returns (run: seq<State>, steps: seq<Step>)
    ensures IsRun(run, steps)
    ensures var s := run[|steps|];
            && |s.threads| == 1 && s.threads[0] == Using(0) && s.mainLock == None
            && forall later, moves, k: nat ::
                 IsPath(later, moves) && later[0] == AfterReading(s, 0) && k < |later| ==> WaitsForItself(later[k], 0)
  {
    run, steps := MainIsUsed();
    var s := run[|steps|];
    RunInv(run, steps, |steps|);
    LockedCallbackWaitsForItself(s, 0);
    forall later: seq<State>, moves: seq<Step>, k: nat |
      IsPath(later, moves) && later[0] == AfterReading(s, 0) && k < |later|
      ensures WaitsForItself(later[k], 0)
    {
      WaitsForEver(later, moves, 0, k);
    }
  }
}
