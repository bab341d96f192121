/** The HTTP(S)/HTTP-3 race of libcore/http_h3.go, as an interleaving step system.

    Any number of racers run one request each.  The first response with status 200 is
    handed to the waiter over an unbuffered channel; every other response body has to
    be closed by whoever holds it.  A step is one atomic action of one party: the
    outcome of a request, one access to an atomic counter, one channel rendezvous, one
    cancel call, one Close.  The result of a request is left open. */
module H3Race {

  /** Who is responsible for closing a racer's response body. */
  datatype Owner = NoBody | Racer | Waiter | Caller | Released

  datatype RacerPc =
    | Requesting            // inside fn(reqCtx)
    | Joining               // the request failed: about to join its error
    | DroppingBody          // the failed request still came with a response
    | Quoting               // status other than 200: inside errorString, which reads the body
    | JoiningStatus         // the quoted body is closed: about to join the status error
    | Counting              // status 200: about to call successCount.Add(1)
    | Late                  // not the first success
    | Arriving              // the first success, on its way to the select
    | Selecting             // offers its response on successCh, or watches waitCtx.Done()
    | Abandoned             // took the waitCtx.Done() branch
    | Deferred              // the deferred function: about to load successCount
    | Tallying              // loaded zero: about to call failedCount.Add(1)
    | Waking                // the last failure: about to call waitCancel()
    | Ended

  /** `failed`, `joined` and `counted` record the racer's history. */
  datatype RacerState = RacerState(
    pc: RacerPc, owner: Owner, closes: nat, ok: bool, failed: bool, joined: bool, counted: bool)

  /** What the request of a racer came back with. */
  datatype Outcome =
    | Failure(withBody: bool)
    | Answer(ok: bool)      // a response without error; ok says that its status is 200

  /** Why waitCtx is done: the first cause sticks. */
  datatype WaitCtx = Active | Expired | AllFailed | CallReturned

  datatype Result =
    | Winner(index: nat)
    // the joined racer errors, or waitCtx.Err() if there are none, which is nil for Active
    | Error(joined: seq<nat>, cause: WaitCtx)

  datatype WaiterPc =
    | Waiting                          // the outer select
    | Checking                         // the inner select with a default
    | Succeeding(winner: nat, next: nat)  // cancelling the losers one by one
    | CancellingAll(next: nat)
    | ReadingError
    | Returned(result: Result)

  datatype State = State(
    racers: seq<RacerState>,
    waiter: WaiterPc,
    ctx: WaitCtx,
    successCount: nat,
    failedCount: nat,
    first: int,             // the racer whose Add returned 1, or -1
    tallied: set<nat>,      // the racers that incremented failedCount
    finalErr: seq<nat>,     // the racers whose error was joined, in order
    cancelled: set<nat>)    // the racers whose request context was cancelled by a cancel call

  /** One atomic action. */
  datatype Step =
    | Finish(i: nat, outcome: Outcome)
    | PageRead(i: nat)      // the error page ends, fails or is cancelled; errorString closes it
    | Local(i: nat)         // the next own action of racer i
    | GiveUp(i: nat)        // the select of racer i takes waitCtx.Done()
    | Rendezvous(i: nat)    // racer i sends while the waiter receives
    | Deadline              // waitCtx times out
    | NoticeDone            // the outer select takes waitCtx.Done()
    | Default               // the inner select finds no sender
    | Proceed               // the waiter's next own action after a select
    | CallerClose           // the caller closes the winning body

  function Init(n: nat): State {
    State(seq(n, i => RacerState(Requesting, NoBody, 0, false, false, false, false)),
          Waiting, Active, 0, 0, -1, {}, [], {})
  }

  predicate Receiving(s: State) {
    s.waiter.Waiting? || s.waiter.Checking?
  }

  /** Racer i is between two steps that involve nobody else. */
  predicate HasOwnStep(s: State, i: nat) {
    i < |s.racers| && s.racers[i].pc !in {Requesting, Selecting, Ended}
  }

  predicate Enabled(s: State, step: Step) {
    match step
    case Finish(i, _) => i < |s.racers| && s.racers[i].pc == Requesting
    case PageRead(i) => i < |s.racers| && s.racers[i].pc == Quoting
    case Local(i) => HasOwnStep(s, i) && s.racers[i].pc != Quoting
    case GiveUp(i) => i < |s.racers| && s.racers[i].pc == Selecting && s.ctx != Active
    case Rendezvous(i) => i < |s.racers| && s.racers[i].pc == Selecting && Receiving(s)
    case Deadline => s.ctx == Active
    case NoticeDone => s.waiter == Waiting && s.ctx != Active
    // a default branch is taken only when no communication can proceed
    case Default => s.waiter == Checking && forall i | 0 <= i < |s.racers| :: s.racers[i].pc != Selecting
    case Proceed => s.waiter.Succeeding? || s.waiter.CancellingAll? || s.waiter.ReadingError?
    case CallerClose =>
      s.waiter.Returned? && s.waiter.result.Winner? && s.waiter.result.index < |s.racers| &&
      s.racers[s.waiter.result.index].owner == Caller
  }

  function FinishRacer(r: RacerState, outcome: Outcome): RacerState {
    match outcome
    case Failure(withBody) => r.(pc := Joining, failed := true, owner := if withBody then Racer else NoBody)
    case Answer(ok) => r.(pc := if ok then Counting else Quoting, failed := !ok, ok := ok, owner := Racer)
  }

  function CloseBody(r: RacerState): RacerState {
    r.(owner := Released, closes := r.closes + 1)
  }

  function LocalStep(s: State, i: nat): State
    requires HasOwnStep(s, i)
  {
    var r := s.racers[i];
    match r.pc
    case Joining =>
      s.(racers := s.racers[i := r.(pc := if r.owner == Racer then DroppingBody else Deferred, joined := true)],
         finalErr := s.finalErr + [i])
    case DroppingBody => s.(racers := s.racers[i := CloseBody(r).(pc := Deferred)])
    case Quoting => s.(racers := s.racers[i := CloseBody(r).(pc := JoiningStatus)])
    case JoiningStatus =>
      s.(racers := s.racers[i := r.(pc := Deferred, joined := true)], finalErr := s.finalErr + [i])
    case Counting =>
      if s.successCount + 1 != 1
      then s.(racers := s.racers[i := r.(pc := Late, counted := true)], successCount := s.successCount + 1)
      else s.(racers := s.racers[i := r.(pc := Arriving, counted := true)], successCount := s.successCount + 1,
              first := i)
    case Late => s.(racers := s.racers[i := CloseBody(r).(pc := Deferred)])
    case Arriving => s.(racers := s.racers[i := r.(pc := Selecting)])
    case Abandoned => s.(racers := s.racers[i := CloseBody(r).(pc := Deferred)])
    case Deferred =>
      s.(racers := s.racers[i := r.(pc := if s.successCount == 0 then Tallying else Ended)])
    case Tallying =>
      s.(racers := s.racers[i := r.(pc := if s.failedCount + 1 >= |s.racers| then Waking else Ended)],
         failedCount := s.failedCount + 1, tallied := s.tallied + {i})
    case Waking =>
      s.(racers := s.racers[i := r.(pc := Ended)], ctx := if s.ctx == Active then AllFailed else s.ctx)
    case _ => s
  }

  /** doH3Direct returns; the deferred waitCancel() runs. */
  function Return(s: State, result: Result): State {
    s.(waiter := Returned(result), ctx := if s.ctx == Active then CallReturned else s.ctx)
  }

  function ProceedStep(s: State): State
    requires Enabled(s, Proceed)
  {
    match s.waiter
    case Succeeding(w, j) =>
      if j < |s.racers|
      then s.(waiter := Succeeding(w, j + 1), cancelled := if j != w then s.cancelled + {j} else s.cancelled)
      // the winning body gets its hook and goes to the caller
      else if w < |s.racers|
      then Return(s.(racers := s.racers[w := s.racers[w].(owner := Caller)]), Winner(w))
      else s
    case CancellingAll(j) =>
      if j < |s.racers|
      then s.(waiter := CancellingAll(j + 1), cancelled := s.cancelled + {j})
      else s.(waiter := ReadingError)
    case ReadingError => Return(s, Error(s.finalErr, s.ctx))
    case _ => s
  }

  function Apply(s: State, step: Step): State
    requires Enabled(s, step)
  {
    match step
    case Finish(i, outcome) => s.(racers := s.racers[i := FinishRacer(s.racers[i], outcome)])
    case PageRead(i) => LocalStep(s, i)
    case Local(i) => LocalStep(s, i)
    case GiveUp(i) => s.(racers := s.racers[i := s.racers[i].(pc := Abandoned)])
    case Rendezvous(i) =>
      s.(racers := s.racers[i := s.racers[i].(pc := Deferred, owner := Waiter)], waiter := Succeeding(i, 0))
    case Deadline => s.(ctx := Expired)
    case NoticeDone => s.(waiter := Checking)
    case Default => s.(waiter := CancellingAll(0))
    case Proceed => ProceedStep(s)
    case CallerClose =>
      var w := s.waiter.result.index;
      s.(racers := s.racers[w := CloseBody(s.racers[w])], cancelled := s.cancelled + {w})
  }

  // ---------------------------------------------------------------- the invariant

  /** What the program point of racer i says about its body and its history. */
  ghost predicate RacerInv(s: State, i: nat)
    requires i < |s.racers|
  {
    var r := s.racers[i];
    && r.closes == (if r.owner == Released then 1 else 0)
    && (r.counted ==> s.successCount > 0 && !r.failed && r.ok)
    && (i in s.tallied ==> r.pc in {Waking, Ended})
    && (r.counted ==> r.owner != NoBody)
    && (r.owner in {Waiter, Caller} ==> r.ok && r.pc in {Deferred, Ended} && s.first == i)
    && match r.pc
       case Requesting => r.owner == NoBody && !r.failed && !r.joined && !r.counted
       case Joining => r.owner in {NoBody, Racer} && r.failed && !r.joined
       case DroppingBody => r.owner == Racer && r.failed && r.joined
       case Quoting => r.owner == Racer && r.failed && !r.joined
       case JoiningStatus => r.owner == Released && r.failed && !r.joined
       case Counting => r.owner == Racer && r.ok && !r.failed && !r.counted
       case Late => r.owner == Racer && r.counted && s.first != i
       case Arriving => r.owner == Racer && r.counted && s.first == i
       case Selecting => r.owner == Racer && r.counted && s.first == i
       case Abandoned => r.owner == Racer && r.counted && s.first == i && s.ctx != Active
       case Deferred => r.owner != Racer && (r.counted || (r.failed && r.joined))
       case Tallying => r.owner != Racer && r.failed && r.joined
       case Waking => r.owner != Racer && r.failed && r.joined && i in s.tallied && s.failedCount >= |s.racers|
       case Ended => r.owner != Racer && (r.counted || (r.failed && r.joined && (i in s.tallied || s.successCount > 0)))
  }

  ghost predicate SomeoneWakes(s: State) {
    exists i :: 0 <= i < |s.racers| && s.racers[i].pc == Waking
  }

  /** The counters agree with the racers they count. */
  ghost predicate CounterInv(s: State) {
    && |s.tallied| == s.failedCount
    && (forall i :: i in s.tallied ==> 0 <= i < |s.racers| && s.racers[i].failed && s.racers[i].joined)
    && (s.successCount == 0 ==> s.first == -1)
    && (s.successCount > 0 ==> 0 <= s.first < |s.racers| && s.racers[s.first].counted)
    && (s.ctx == AllFailed ==> s.failedCount >= |s.racers|)
    // the racer that completed the tally is about to wake the waiter
    && (s.failedCount >= |s.racers| && s.ctx == Active ==> SomeoneWakes(s))
    && (forall i :: 0 <= i < |s.racers| ==> (i in s.finalErr <==> s.racers[i].joined))
  }

  /** The first success was abandoned, or it is still on its way, or it was received. */
  ghost predicate FirstInv(s: State) {
    s.successCount > 0 && 0 <= s.first < |s.racers| ==>
      var r := s.racers[s.first];
      r.pc in {Deferred, Ended} && r.owner == Released ==>
        s.ctx != Active || (s.waiter.Returned? && s.waiter.result.Winner?)
  }

  ghost predicate Unreceived(s: State) {
    forall i :: 0 <= i < |s.racers| ==> s.racers[i].owner !in {Waiter, Caller}
  }

  ghost predicate Below(cancelled: set<nat>, bound: nat, except: int) {
    forall k: nat :: k in cancelled <==> k < bound && k != except
  }

  /** What the program point of the waiter says about bodies and request contexts. */
  ghost predicate WaiterInv(s: State) {
    match s.waiter
    case Waiting => Unreceived(s) && s.cancelled == {}
    case Checking => Unreceived(s) && s.cancelled == {} && s.ctx != Active
    case Succeeding(w, j) =>
      && w < |s.racers| && j <= |s.racers|
      && (forall i :: 0 <= i < |s.racers| ==> (s.racers[i].owner == Waiter <==> i == w))
      && (forall i :: 0 <= i < |s.racers| ==> s.racers[i].owner != Caller)
      && Below(s.cancelled, j, w)
    case CancellingAll(j) => Unreceived(s) && s.ctx != Active && j <= |s.racers| && Below(s.cancelled, j, -1)
    case ReadingError => Unreceived(s) && s.ctx != Active && Below(s.cancelled, |s.racers|, -1)
    case Returned(Winner(w)) =>
      && w < |s.racers| && s.ctx != Active
      && s.racers[w].ok && s.racers[w].owner in {Caller, Released}
      && s.first == w && s.racers[w].pc in {Deferred, Ended}
      && (forall i :: 0 <= i < |s.racers| && i != w ==> s.racers[i].owner !in {Waiter, Caller})
      && Below(s.cancelled, |s.racers|, if s.racers[w].owner == Caller then w else -1)
    case Returned(Error(joined, cause)) =>
      && Unreceived(s) && s.ctx == cause && cause != Active
      && Below(s.cancelled, |s.racers|, -1)
      && (cause == AllFailed ==> forall i :: 0 <= i < |s.racers| ==> i in joined)
  }

  /** The deferred waitCancel ends the wait only when a response is returned. */
  ghost predicate ReturnInv(s: State) {
    s.ctx == CallReturned ==> s.waiter.Returned? && s.waiter.result.Winner?
  }

  ghost predicate Inv(s: State) {
    && |s.racers| > 0
    && (forall i :: 0 <= i < |s.racers| ==> RacerInv(s, i))
    && CounterInv(s)
    && FirstInv(s)
    && WaiterInv(s)
    && ReturnInv(s)
  }

  lemma InitInv(n: nat)
    requires n > 0
    ensures Inv(Init(n))
  {
  }

  function Upto(n: nat): (all: set<nat>)
    ensures |all| == n
    ensures forall i: nat :: i in all <==> i < n
  {
    if n == 0 then {} else Upto(n - 1) + {n - 1}
  }

  /** A tally as large as the number of racers names every racer. */
  lemma FullTally(tallied: set<nat>, n: nat)
    requires forall i :: i in tallied ==> i < n
    requires |tallied| >= n
    ensures tallied == Upto(n)
  {
    var missing := Upto(n) - tallied;
    assert Upto(n) == tallied + missing;
  }

  /** A step that leaves racer k alone and only moves the shared state forward keeps its invariant. */
  lemma FrameRacer(s: State, s': State, k: nat)
    requires k < |s.racers| == |s'.racers| && RacerInv(s, k) && s'.racers[k] == s.racers[k]
    requires s'.successCount >= s.successCount && s'.failedCount >= s.failedCount
    requires s'.first == s.first || (s.first == -1 && s'.first != k)
    requires s.racers[k].owner in {Waiter, Caller} || s.racers[k].pc in {Arriving, Selecting, Abandoned} ==>
               s'.first == s.first
    requires k in s'.tallied <==> k in s.tallied
    requires s.ctx != Active ==> s'.ctx != Active
    ensures RacerInv(s', k)
  {
  }

  lemma FinishKeepsRacers(s: State, i: nat, outcome: Outcome)
    requires Inv(s) && Enabled(s, Finish(i, outcome))
    ensures forall k :: 0 <= k < |s.racers| ==> RacerInv(Apply(s, Finish(i, outcome)), k)
  {
    var s' := Apply(s, Finish(i, outcome));
    assert RacerInv(s, i);
    forall k | 0 <= k < |s.racers| ensures RacerInv(s', k) {
      if k != i { FrameRacer(s, s', k); }
    }
  }

  lemma FinishKeepsCounters(s: State, i: nat, outcome: Outcome)
    requires Inv(s) && Enabled(s, Finish(i, outcome))
    ensures CounterInv(Apply(s, Finish(i, outcome)))
  {
    var s' := Apply(s, Finish(i, outcome));
    assert RacerInv(s, i);
    if SomeoneWakes(s) {
      var w :| 0 <= w < |s.racers| && s.racers[w].pc == Waking;
      assert s'.racers[w].pc == Waking;
    }
  }

  lemma FinishKeepsInv(s: State, i: nat, outcome: Outcome)
    requires Inv(s) && Enabled(s, Finish(i, outcome))
    ensures Inv(Apply(s, Finish(i, outcome)))
  {
    FinishKeepsRacers(s, i, outcome);
    FinishKeepsCounters(s, i, outcome);
    assert RacerInv(s, i);
  }

  lemma LocalKeepsOwn(s: State, i: nat)
    requires Inv(s) && HasOwnStep(s, i)
    ensures RacerInv(LocalStep(s, i), i)
  {
    assert RacerInv(s, i);
  }

  lemma LocalKeepsOther(s: State, i: nat, k: nat)
    requires Inv(s) && HasOwnStep(s, i) && k < |s.racers| && k != i
    ensures RacerInv(LocalStep(s, i), k)
  {
    assert RacerInv(s, i) && RacerInv(s, k);
    FrameRacer(s, LocalStep(s, i), k);
  }

  lemma LocalKeepsRacers(s: State, i: nat)
    requires Inv(s) && HasOwnStep(s, i)
    ensures forall k :: 0 <= k < |s.racers| ==> RacerInv(LocalStep(s, i), k)
  {
    forall k | 0 <= k < |s.racers| ensures RacerInv(LocalStep(s, i), k) {
      if k == i { LocalKeepsOwn(s, i); } else { LocalKeepsOther(s, i, k); }
    }
  }

  /** A state that differs from s in the program point and body of racer i only. */
  ghost predicate OnlyRacer(s: State, s': State, i: nat) {
    && i < |s.racers| == |s'.racers|
    && (forall k :: 0 <= k < |s.racers| && k != i ==> s'.racers[k] == s.racers[k])
    && s'.waiter == s.waiter && s'.cancelled == s.cancelled
    && (s'.racers[i].owner == s.racers[i].owner || (s.racers[i].owner == Racer && s'.racers[i].owner == Released))
    && s'.racers[i].ok == s.racers[i].ok && s'.racers[i].failed == s.racers[i].failed
    && (s.racers[i].counted ==> s'.racers[i].counted) && (s.racers[i].joined ==> s'.racers[i].joined)
  }

  /** A racer keeps the tally, the first success and the joined errors as they are. */
  ghost predicate SameCounters(s: State, s': State, i: nat) {
    && OnlyRacer(s, s', i)
    && s'.racers[i].counted == s.racers[i].counted && s'.racers[i].joined == s.racers[i].joined
    && s'.finalErr == s.finalErr && s'.successCount == s.successCount && s'.first == s.first
    && s'.failedCount == s.failedCount && s'.tallied == s.tallied
  }

  lemma QuietKeepsCounters(s: State, s': State, i: nat)
    requires Inv(s) && SameCounters(s, s', i)
    requires s'.ctx == s.ctx || (s.racers[i].pc == Waking && s'.ctx == AllFailed)
    requires s.racers[i].pc == Waking ==> s'.ctx != Active
    ensures CounterInv(s')
  {
    assert RacerInv(s, i);
    if SomeoneWakes(s) {
      var w :| 0 <= w < |s.racers| && s.racers[w].pc == Waking;
      assert w != i ==> s'.racers[w].pc == Waking;
    }
  }

  lemma JoinKeepsCounters(s: State, i: nat)
    requires Inv(s) && HasOwnStep(s, i) && s.racers[i].pc in {Joining, JoiningStatus}
    ensures CounterInv(LocalStep(s, i))
  {
    var s' := LocalStep(s, i);
    assert RacerInv(s, i);
    if SomeoneWakes(s) {
      var w :| 0 <= w < |s.racers| && s.racers[w].pc == Waking;
      assert s'.racers[w].pc == Waking;
    }
  }

  lemma CountKeepsCounters(s: State, i: nat)
    requires Inv(s) && HasOwnStep(s, i) && s.racers[i].pc == Counting
    ensures CounterInv(LocalStep(s, i))
  {
    var s' := LocalStep(s, i);
    assert RacerInv(s, i);
    if SomeoneWakes(s) {
      var w :| 0 <= w < |s.racers| && s.racers[w].pc == Waking;
      assert s'.racers[w].pc == Waking;
    }
  }

  lemma TallyKeepsCounters(s: State, i: nat)
    requires Inv(s) && HasOwnStep(s, i) && s.racers[i].pc == Tallying
    ensures CounterInv(LocalStep(s, i))
  {
    var s' := LocalStep(s, i);
    assert RacerInv(s, i);
    assert s'.failedCount >= |s.racers| ==> s'.racers[i].pc == Waking;
  }

  lemma LocalKeepsCounters(s: State, i: nat)
    requires Inv(s) && HasOwnStep(s, i)
    ensures CounterInv(LocalStep(s, i))
  {
    assert RacerInv(s, i);
    var pc := s.racers[i].pc;
    if pc in {Joining, JoiningStatus} {
      JoinKeepsCounters(s, i);
    } else if pc == Counting {
      CountKeepsCounters(s, i);
    } else if pc == Tallying {
      TallyKeepsCounters(s, i);
    } else {
      QuietKeepsCounters(s, LocalStep(s, i), i);
    }
  }

  /** What the waiter can see of an own step of racer i. */
  ghost predicate OwnStep(s: State, s': State, i: nat) {
    && OnlyRacer(s, s', i)
    && (s'.ctx == s.ctx || (s.ctx == Active && s'.ctx == AllFailed))
    && (s'.first == s.first || (s.first == -1 && s'.first == i && s'.racers[i].owner == Racer))
    && (s'.racers[i].owner != s.racers[i].owner ==> s.racers[i].pc in {DroppingBody, Quoting, Late, Abandoned})
  }

  lemma LocalIsOwnStep(s: State, i: nat)
    requires Inv(s) && HasOwnStep(s, i)
    ensures OwnStep(s, LocalStep(s, i), i)
  {
    assert RacerInv(s, i);
  }

  lemma OwnStepKeepsWaiter(s: State, s': State, i: nat)
    requires Inv(s) && OwnStep(s, s', i) && RacerInv(s', i)
    ensures WaiterInv(s')
  {
    assert RacerInv(s, i);
  }

  lemma OwnStepKeepsFirst(s: State, s': State, i: nat)
    requires Inv(s) && OwnStep(s, s', i) && RacerInv(s', i) && CounterInv(s')
    ensures FirstInv(s')
  {
    assert RacerInv(s, i);
    if s.first >= 0 { assert RacerInv(s, s.first); }
  }

  lemma LocalKeepsInv(s: State, i: nat)
    requires Inv(s) && HasOwnStep(s, i)
    ensures Inv(LocalStep(s, i))
  {
    LocalKeepsRacers(s, i);
    LocalKeepsCounters(s, i);
    LocalIsOwnStep(s, i);
    OwnStepKeepsWaiter(s, LocalStep(s, i), i);
    OwnStepKeepsFirst(s, LocalStep(s, i), i);
  }

  lemma ReceiveKeepsInv(s: State, i: nat)
    requires Inv(s) && Enabled(s, Rendezvous(i))
    ensures Inv(Apply(s, Rendezvous(i)))
  {
    var s' := Apply(s, Rendezvous(i));
    assert RacerInv(s, i);
    forall k | 0 <= k < |s.racers| ensures RacerInv(s', k) {
      if k != i { FrameRacer(s, s', k); }
    }
    if SomeoneWakes(s) {
      var w :| 0 <= w < |s.racers| && s.racers[w].pc == Waking;
      assert s'.racers[w].pc == Waking;
    }
  }

  lemma HandOverKeepsInv(s: State)
    requires Inv(s) && s.waiter.Succeeding? && s.waiter.next == |s.racers|
    ensures Inv(Apply(s, Proceed))
  {
    var s' := Apply(s, Proceed);
    var w := s.waiter.winner;
    assert RacerInv(s, w) && s.racers[w].owner == Waiter;
    forall k | 0 <= k < |s.racers| ensures RacerInv(s', k) {
      assert RacerInv(s, k);
      if k != w { FrameRacer(s, s', k); }
    }
    if SomeoneWakes(s) {
      var k :| 0 <= k < |s.racers| && s.racers[k].pc == Waking;
      assert s'.racers[k].pc == Waking;
    }
  }

  lemma CancelKeepsInv(s: State)
    requires Inv(s) && (s.waiter.CancellingAll? || (s.waiter.Succeeding? && s.waiter.next < |s.racers|))
    ensures Inv(Apply(s, Proceed))
  {
    var s' := Apply(s, Proceed);
    assert s'.racers == s.racers;
    forall k | 0 <= k < |s.racers| ensures RacerInv(s', k) {
      FrameRacer(s, s', k);
    }
    assert SomeoneWakes(s) ==> SomeoneWakes(s');
  }

  lemma ReadErrorKeepsInv(s: State)
    requires Inv(s) && s.waiter.ReadingError?
    ensures Inv(Apply(s, Proceed))
  {
    var s' := Apply(s, Proceed);
    assert s'.racers == s.racers && s'.ctx == s.ctx;
    if s.ctx == AllFailed { FullTally(s.tallied, |s.racers|); }
    forall k | 0 <= k < |s.racers| ensures RacerInv(s', k) {
      FrameRacer(s, s', k);
    }
  }

  lemma GiveUpKeepsInv(s: State, i: nat)
    requires Inv(s) && Enabled(s, GiveUp(i))
    ensures Inv(Apply(s, GiveUp(i)))
  {
    var s' := Apply(s, GiveUp(i));
    assert RacerInv(s, i);
    forall k | 0 <= k < |s.racers| ensures RacerInv(s', k) {
      if k != i { FrameRacer(s, s', k); }
    }
  }

  lemma OtherKeepsInv(s: State, step: Step)
    requires Inv(s) && Enabled(s, step)
    requires step.Deadline? || step.NoticeDone? || step.Default?
    ensures Inv(Apply(s, step))
  {
    var s' := Apply(s, step);
    assert s'.racers == s.racers;
    forall k | 0 <= k < |s.racers| ensures RacerInv(s', k) {
      FrameRacer(s, s', k);
    }
  }

  lemma CloseKeepsInv(s: State)
    requires Inv(s) && Enabled(s, CallerClose)
    ensures Inv(Apply(s, CallerClose))
  {
    var s', w := Apply(s, CallerClose), s.waiter.result.index;
    assert RacerInv(s, w);
    forall k | 0 <= k < |s.racers| ensures RacerInv(s', k) {
      if k != w { FrameRacer(s, s', k); }
    }
  }

  lemma ProceedKeepsInv(s: State)
    requires Inv(s) && Enabled(s, Proceed)
    ensures Inv(Apply(s, Proceed))
  {
    if s.waiter.ReadingError? {
      ReadErrorKeepsInv(s);
    } else if s.waiter.Succeeding? && s.waiter.next == |s.racers| {
      HandOverKeepsInv(s);
    } else {
      CancelKeepsInv(s);
    }
  }

  lemma SameRacers(s: State, step: Step)
    requires Enabled(s, step)
    ensures |Apply(s, step).racers| == |s.racers|
  {
  }

  lemma StepKeepsInv(s: State, step: Step)
    requires Inv(s) && Enabled(s, step)
    ensures Inv(Apply(s, step))
  {
    if step.Finish? {
      FinishKeepsInv(s, step.i, step.outcome);
    } else if step.Local? || step.PageRead? {
      LocalKeepsInv(s, step.i);
    } else if step.Rendezvous? {
      ReceiveKeepsInv(s, step.i);
    } else if step.Proceed? {
      ProceedKeepsInv(s);
    } else if step.CallerClose? {
      CloseKeepsInv(s);
    } else if step.GiveUp? {
      GiveUpKeepsInv(s, step.i);
    } else {
      OtherKeepsInv(s, step);
    }
  }

  // ---------------------------------------------------------------- runs

  ghost predicate Next(s: State, step: Step, s': State) {
    Enabled(s, step) && s' == Apply(s, step)
  }

  lemma NextKeepsInv(s: State, step: Step, s': State)
    requires Inv(s) && Next(s, step, s')
    ensures Inv(s') && |s'.racers| == |s.racers|
  {
    StepKeepsInv(s, step);
    SameRacers(s, step);
  }

  /** A run of n racers: every step is enabled where it is taken. */
  ghost predicate IsRun(n: nat, steps: seq<Step>, states: seq<State>) {
    && n > 0
    && |states| == |steps| + 1
    && states[0] == Init(n)
    && forall k :: 0 <= k < |steps| ==> Next(states[k], steps[k], states[k + 1])
  }

  lemma {:induction false} RunInv(n: nat, steps: seq<Step>, states: seq<State>, k: nat)
    requires IsRun(n, steps, states) && k < |states|
    ensures Inv(states[k]) && |states[k].racers| == n
  {
    if k == 0 {
      InitInv(n);
    } else {
      RunInv(n, steps, states, k - 1);
      NextKeepsInv(states[k - 1], steps[k - 1], states[k]);
    }
  }

  /** In every state of every run a body is closed at most once, and at most one body
      is with the waiter or the caller: a response with status 200. */
  lemma BodyHasOneOwner(n: nat, steps: seq<Step>, states: seq<State>, k: nat)
    requires IsRun(n, steps, states) && k < |states|
    ensures |states[k].racers| == n
    ensures forall i :: 0 <= i < n ==>
              (states[k].racers[i].closes == if states[k].racers[i].owner == Released then 1 else 0)
    ensures forall i :: 0 <= i < n && states[k].racers[i].owner in {Waiter, Caller} ==> states[k].racers[i].ok
    ensures forall i, j :: 0 <= i < n && 0 <= j < n && i != j && states[k].racers[i].owner in {Waiter, Caller} ==>
              states[k].racers[j].owner !in {Waiter, Caller}
  {
    RunInv(n, steps, states, k);
    var s := states[k];
    forall i | 0 <= i < n
      ensures s.racers[i].closes == if s.racers[i].owner == Released then 1 else 0
      ensures s.racers[i].owner in {Waiter, Caller} ==> s.racers[i].ok && s.first == i
    {
      assert RacerInv(s, i);
    }
  }

  /** The call has returned and every goroutine has ended. */
  predicate Finished(s: State) {
    s.waiter.Returned? && forall i | 0 <= i < |s.racers| :: s.racers[i].pc == Ended
  }

  /** At the end the only body not closed exactly once is the one the call returned,
      as long as the caller holds it. */
  lemma EveryBodyIsReleased(n: nat, steps: seq<Step>, states: seq<State>, i: nat)
    requires IsRun(n, steps, states) && i < n
    requires Finished(states[|steps|])
    ensures |states[|steps|].racers| == n
    ensures var s := states[|steps|];
            var r := s.racers[i];
            || r.owner == NoBody
            || (r.owner == Released && r.closes == 1)
            || (r.owner == Caller && r.closes == 0 && r.ok && s.waiter.result == Winner(i))
  {
    RunInv(n, steps, states, |steps|);
    assert RacerInv(states[|steps|], i);
  }

  /** failedCount reaches the number of racers only when every racer failed. */
  lemma FullCountMeansAllFailed(n: nat, steps: seq<Step>, states: seq<State>, k: nat)
    requires IsRun(n, steps, states) && k < |states| && states[k].failedCount >= n
    ensures |states[k].racers| == n
    ensures forall i :: 0 <= i < n ==> states[k].racers[i].failed && states[k].racers[i].joined
    ensures states[k].successCount == 0
  {
    RunInv(n, steps, states, k);
    FullTally(states[k].tallied, n);
    var s := states[k];
    forall i: nat | i < n ensures s.racers[i].failed && s.racers[i].joined && !s.racers[i].counted {
      assert i in Upto(n) && RacerInv(s, i);
    }
  }

  /** What the call returns: a response with status 200, or an error that is never nil. The wait
      is over before an error is returned, because the deadline passed or every racer failed; in
      the second case the error names every racer, so it stands for the context's own error only
      after the deadline. */
  lemma ReturnedResult(n: nat, steps: seq<Step>, states: seq<State>, k: nat)
    requires IsRun(n, steps, states) && k < |states| && states[k].waiter.Returned?
    ensures |states[k].racers| == n
    ensures match states[k].waiter.result
            case Winner(w) => w < n && states[k].racers[w].ok && states[k].racers[w].owner in {Caller, Released}
            case Error(joined, cause) =>
              && (cause == Expired || cause == AllFailed) && states[k].ctx == cause
              && (cause == AllFailed ==> forall i :: 0 <= i < n ==> i in joined)
              && (joined == [] ==> cause == Expired)
  {
    RunInv(n, steps, states, k);
    var result := states[k].waiter.result;
    if result.Error? && result.cause == AllFailed { assert 0 in result.joined; }
  }

  /** The request contexts after the return: all cancelled after an error; after a success
      all but the winner's, which is cancelled exactly by the caller's Close. */
  lemma ContextsAfterReturn(n: nat, steps: seq<Step>, states: seq<State>, k: nat)
    requires IsRun(n, steps, states) && k < |states| && states[k].waiter.Returned?
    ensures |states[k].racers| == n
    ensures match states[k].waiter.result
            case Error(_, _) => states[k].cancelled == Upto(n)
            case Winner(w) =>
              w < n && states[k].cancelled == if states[k].racers[w].closes == 0 then Upto(n) - {w} else Upto(n)
  {
    RunInv(n, steps, states, k);
    var s := states[k];
    if s.waiter.result.Winner? { assert RacerInv(s, s.waiter.result.index); }
  }

  /** No context is cancelled while its racer's response may still be received or read. */
  lemma NoEarlyCancel(n: nat, steps: seq<Step>, states: seq<State>, k: nat, i: nat)
    requires IsRun(n, steps, states) && k < |states| && i < n
    ensures |states[k].racers| == n
    ensures Receiving(states[k]) || states[k].racers[i].owner in {Waiter, Caller} ==> i !in states[k].cancelled
  {
    RunInv(n, steps, states, k);
    assert RacerInv(states[k], i);
  }

  // ---------------------------------------------------------------- progress

  /** The steps that neither the network, the clock nor the caller has to take. */
  predicate Internal(step: Step) {
    step.Local? || step.GiveUp? || step.Rendezvous? || step.NoticeDone? || step.Default? || step.Proceed?
  }

  lemma SomeoneUntallied(tallied: set<nat>, n: nat)
    requires |tallied| < n
    ensures exists i :: i in Upto(n) && i !in tallied
  {
    var missing, both, extra := Upto(n) - tallied, Upto(n) * tallied, tallied - Upto(n);
    assert Upto(n) == missing + both && tallied == both + extra;
    var i :| i in missing;
  }

  lemma SomeoneIsBusy(s: State)
    requires Inv(s) && s.waiter == Waiting && s.ctx == Active
    ensures exists i :: 0 <= i < |s.racers| && s.racers[i].pc != Ended
  {
    if s.successCount > 0 {
      assert RacerInv(s, s.first);
      assert s.racers[s.first].pc != Ended;
    } else if s.failedCount < |s.racers| {
      SomeoneUntallied(s.tallied, |s.racers|);
      var i :| i in Upto(|s.racers|) && i !in s.tallied;
      assert RacerInv(s, i);
      assert s.racers[i].pc != Ended;
    } else {
      var i :| 0 <= i < |s.racers| && s.racers[i].pc == Waking;
      assert s.racers[i].pc != Ended;
    }
  }

  /** Racer i waits for the network: for its response, or for the rest of an error page. */
  predicate OnNetwork(pc: RacerPc) {
    pc == Requesting || pc == Quoting
  }

  /** Nobody gets stuck: once the wait is over or nothing is awaited from the network, some
      goroutine can move until the call has returned and every other goroutine has ended. */
  lemma Progress(s: State)
    requires Inv(s)
    requires s.ctx != Active || forall i :: 0 <= i < |s.racers| ==> !OnNetwork(s.racers[i].pc)
    requires !s.waiter.Returned?
             || exists i :: 0 <= i < |s.racers| && !OnNetwork(s.racers[i].pc) && s.racers[i].pc != Ended
    ensures exists step :: Internal(step) && Enabled(s, step)
  {
    if s.waiter == Waiting && s.ctx == Active { SomeoneIsBusy(s); }
    if i: nat :| i < |s.racers| && s.racers[i].pc !in {Requesting, Quoting, Selecting, Ended} {
      assert Enabled(s, Local(i));
    } else if s.waiter.Succeeding? || s.waiter.CancellingAll? || s.waiter.ReadingError? {
      assert Enabled(s, Proceed);
    } else if i: nat :| i < |s.racers| && s.racers[i].pc == Selecting {
      assert Enabled(s, if Receiving(s) then Rendezvous(i) else GiveUp(i));
    } else {
      assert Enabled(s, if s.waiter == Checking then Default else NoticeDone);
    }
  }

  function Rank(r: RacerState): nat {
    (match r.pc
     case Requesting => 8
     case Counting => 7
     case Arriving => 6
     case Selecting => 5
     case Joining => 5
     case Quoting => 5
     case DroppingBody => 4
     case JoiningStatus => 4
     case Late => 4
     case Abandoned => 4
     case Deferred => 3
     case Tallying => 2
     case Waking => 1
     case Ended => 0)
    + if r.owner == Caller then 1 else 0
  }

  function Total(racers: seq<RacerState>): nat {
    if racers == [] then 0 else Rank(racers[0]) + Total(racers[1..])
  }

  lemma {:induction false} TotalUpdate(racers: seq<RacerState>, i: nat, r: RacerState)
    requires i < |racers|
    ensures Total(racers[i := r]) == Total(racers) - Rank(racers[i]) + Rank(r)
  {
    if i == 0 {
      assert racers[i := r][1..] == racers[1..];
    } else {
      assert racers[i := r][1..] == racers[1..][i - 1 := r];
      TotalUpdate(racers[1..], i - 1, r);
    }
  }

  lemma {:induction false} TotalBound(racers: seq<RacerState>)
    ensures Total(racers) <= 9 * |racers|
  {
    if racers != [] { TotalBound(racers[1..]); }
  }

  function WaiterRank(s: State): int {
    match s.waiter
    case Waiting => |s.racers| + 6
    case Checking => |s.racers| + 5
    case Succeeding(_, j) => |s.racers| - j + 4
    case CancellingAll(j) => |s.racers| - j + 3
    case ReadingError => 2
    case Returned(_) => 0
  }

  function Measure(s: State): int {
    Total(s.racers) + WaiterRank(s) + if s.ctx == Active then 1 else 0
  }

  /** Every step takes its racer closer to its end. */
  lemma RankDrops(s: State, i: nat)
    requires HasOwnStep(s, i) && RacerInv(s, i)
    ensures Rank(LocalStep(s, i).racers[i]) < Rank(s.racers[i])
  {
  }

  lemma RacerStepMeasure(s: State, s': State, i: nat)
    requires i < |s.racers| == |s'.racers| && s'.racers == s.racers[i := s'.racers[i]]
    requires s'.ctx == s.ctx || s'.ctx != Active
    requires Rank(s'.racers[i]) - Rank(s.racers[i]) < WaiterRank(s) - WaiterRank(s')
    ensures Measure(s') < Measure(s)
  {
    TotalUpdate(s.racers, i, s'.racers[i]);
  }

  lemma LocalMeasureDrops(s: State, i: nat)
    requires Inv(s) && HasOwnStep(s, i)
    ensures Measure(LocalStep(s, i)) < Measure(s)
  {
    assert RacerInv(s, i);
    RankDrops(s, i);
    LocalIsOwnStep(s, i);
    RacerStepMeasure(s, LocalStep(s, i), i);
  }

  lemma ProceedMeasureDrops(s: State)
    requires Inv(s) && Enabled(s, Proceed)
    ensures Measure(Apply(s, Proceed)) < Measure(s)
  {
    if s.waiter.Succeeding? && s.waiter.next == |s.racers| {
      RacerStepMeasure(s, Apply(s, Proceed), s.waiter.winner);
    }
  }

  lemma MeasureDrops(s: State, step: Step)
    requires Inv(s) && Enabled(s, step)
    ensures Measure(Apply(s, step)) < Measure(s)
  {
    var s' := Apply(s, step);
    if step.Local? || step.PageRead? {
      LocalMeasureDrops(s, step.i);
    } else if step.Proceed? {
      ProceedMeasureDrops(s);
    } else if step.Finish? || step.GiveUp? || step.Rendezvous? {
      RacerStepMeasure(s, s', step.i);
    } else if step.CallerClose? {
      RacerStepMeasure(s, s', s.waiter.result.index);
    }
  }

  /** Every run of n racers ends after at most 10n + 7 steps, whatever the schedule. */
  lemma {:induction false} RunsAreBounded(n: nat, steps: seq<Step>, states: seq<State>)
    requires IsRun(n, steps, states)
    ensures |steps| <= 10 * n + 7
  {
    TotalBound(Init(n).racers);
    RunMeasure(n, steps, states, |steps|);
    RunInv(n, steps, states, |steps|);
  }

  lemma {:induction false} RunMeasure(n: nat, steps: seq<Step>, states: seq<State>, k: nat)
    requires IsRun(n, steps, states) && k < |states|
    ensures Measure(states[k]) + k <= Measure(states[0])
  {
    if k > 0 {
      RunMeasure(n, steps, states, k - 1);
      RunInv(n, steps, states, k - 1);
      assert Next(states[k - 1], steps[k - 1], states[k]);
      MeasureDrops(states[k - 1], steps[k - 1]);
    }
  }

  /** A run that only the network or the caller's Close could continue has returned; every
      goroutine that does not wait for the network has ended, and the context of those that do is
      cancelled. */
  lemma MaximalRunIsDone(n: nat, steps: seq<Step>, states: seq<State>)
    requires IsRun(n, steps, states)
    requires forall step :: Enabled(states[|steps|], step) ==> step.Finish? || step.PageRead? || step.CallerClose?
    ensures states[|steps|].waiter.Returned? && |states[|steps|].racers| == n
    ensures forall i :: 0 <= i < n ==>
              || states[|steps|].racers[i].pc == Ended
              || (OnNetwork(states[|steps|].racers[i].pc) && i in states[|steps|].cancelled)
  {
    var s := states[|steps|];
    RunInv(n, steps, states, |steps|);
    assert Enabled(s, Deadline) <==> s.ctx == Active;
    if !s.waiter.Returned? || exists i :: 0 <= i < |s.racers| && !OnNetwork(s.racers[i].pc) && s.racers[i].pc != Ended {
      Progress(s);
    }
    forall i | 0 <= i < n && OnNetwork(s.racers[i].pc) ensures i in s.cancelled {
      assert RacerInv(s, i);
    }
  }
}
