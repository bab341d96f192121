/** What the outcomes of the requests decide: which racers fail, and when a response wins. */
module H3Outcome {
  import opened H3Race

  /** The request of racer i fails: with an error, or with a status other than 200. */
  predicate Fails(step: Step, i: nat) {
    step.Finish? && step.i == i && (step.outcome.Failure? || !step.outcome.ok)
  }

  /** The request of racer i comes back with status 200. */
  predicate Succeeds(step: Step, i: nat) {
    step == Finish(i, Answer(true))
  }

  predicate Succeeded(r: RacerState) {
    r.counted || r.pc == Counting
  }

  /** A racer has no outcome yet while its request is on its way. */
  predicate Fresh(r: RacerState) {
    r.pc == Requesting ==> !r.failed && !r.counted
  }

  lemma OwnFailure(s: State, i: nat)
    requires HasOwnStep(s, i)
    ensures |LocalStep(s, i).racers| == |s.racers|
    ensures LocalStep(s, i).racers[i].failed == s.racers[i].failed
  {
  }

  lemma OwnSuccess(s: State, i: nat)
    requires HasOwnStep(s, i)
    ensures |LocalStep(s, i).racers| == |s.racers|
    ensures Succeeded(LocalStep(s, i).racers[i]) == Succeeded(s.racers[i])
  {
  }

  lemma OthersOutcome(s: State, own: nat, i: nat)
    requires HasOwnStep(s, own) && i < |s.racers| && i != own
    ensures |LocalStep(s, own).racers| == |s.racers| && LocalStep(s, own).racers[i] == s.racers[i]
  {
  }

  lemma SharedStepOutcome(s: State, step: Step, i: nat)
    requires Enabled(s, step) && i < |s.racers|
    requires !step.Finish? && !step.Local? && !step.PageRead?
    ensures |Apply(s, step).racers| == |s.racers|
    ensures Apply(s, step).racers[i].failed == s.racers[i].failed
    ensures Succeeded(Apply(s, step).racers[i]) == Succeeded(s.racers[i])
  {
  }

  lemma OutcomeStep(s: State, step: Step, i: nat)
    requires Enabled(s, step) && i < |s.racers| && Fresh(s.racers[i])
    ensures |Apply(s, step).racers| == |s.racers|
    ensures Apply(s, step).racers[i].failed <==> s.racers[i].failed || Fails(step, i)
    ensures Succeeded(Apply(s, step).racers[i]) <==> Succeeded(s.racers[i]) || Succeeds(step, i)
  {
    if step.Local? || step.PageRead? {
      if i == step.i {
        OwnFailure(s, i);
        OwnSuccess(s, i);
      } else {
        OthersOutcome(s, step.i, i);
      }
    } else if !step.Finish? {
      SharedStepOutcome(s, step, i);
    }
  }

  /** The request of racer i has failed, or succeeded, within the first k steps. */
  ghost predicate HasFailed(steps: seq<Step>, k: nat, i: nat)
    requires k <= |steps|
  {
    exists j :: 0 <= j < k && Fails(steps[j], i)
  }

  ghost predicate HasSucceeded(steps: seq<Step>, k: nat, i: nat)
    requires k <= |steps|
  {
    exists j :: 0 <= j < k && Succeeds(steps[j], i)
  }

  lemma OneStepLater(steps: seq<Step>, k: nat, i: nat)
    requires k < |steps|
    ensures HasFailed(steps, k + 1, i) <==> HasFailed(steps, k, i) || Fails(steps[k], i)
    ensures HasSucceeded(steps, k + 1, i) <==> HasSucceeded(steps, k, i) || Succeeds(steps[k], i)
  {
  }

  lemma RacerInRun(n: nat, steps: seq<Step>, states: seq<State>, k: nat, i: nat)
    requires IsRun(n, steps, states) && k < |states| && i < n
    ensures |states[k].racers| == n && RacerInv(states[k], i)
  {
    RunInv(n, steps, states, k);
  }

  lemma FreshInRun(n: nat, steps: seq<Step>, states: seq<State>, k: nat, i: nat)
    requires IsRun(n, steps, states) && k < |states| && i < n
    ensures |states[k].racers| == n && Fresh(states[k].racers[i])
  {
    RacerInRun(n, steps, states, k, i);
  }

  lemma OutcomeNext(n: nat, steps: seq<Step>, states: seq<State>, k: nat, i: nat)
    requires IsRun(n, steps, states) && k < |steps| && i < n
    ensures |states[k].racers| == |states[k + 1].racers| == n
    ensures states[k + 1].racers[i].failed <==> states[k].racers[i].failed || Fails(steps[k], i)
    ensures Succeeded(states[k + 1].racers[i]) <==> Succeeded(states[k].racers[i]) || Succeeds(steps[k], i)
  {
    FreshInRun(n, steps, states, k, i);
    assert Next(states[k], steps[k], states[k + 1]);
    OutcomeStep(states[k], steps[k], i);
  }

  /** A racer has failed, or succeeded, exactly if its request has come back so. */
  lemma {:induction false} OutcomeDecides(n: nat, steps: seq<Step>, states: seq<State>, k: nat, i: nat)
    requires IsRun(n, steps, states) && k < |states| && i < n
    ensures |states[k].racers| == n
    ensures states[k].racers[i].failed <==> HasFailed(steps, k, i)
    ensures Succeeded(states[k].racers[i]) <==> HasSucceeded(steps, k, i)
  {
    if k > 0 {
      OutcomeDecides(n, steps, states, k - 1, i);
      OutcomeNext(n, steps, states, k - 1, i);
      OneStepLater(steps, k - 1, i);
    }
  }

  lemma NeverBoth(s: State, i: nat)
    requires Inv(s) && i < |s.racers| && s.racers[i].failed
    ensures !Succeeded(s.racers[i])
  {
    assert RacerInv(s, i);
  }

  /** A wait that the last failure ended, or a full count of failures, means that every request has
      come back with an error or another status, and none with status 200. */
  lemma AllFailedMeansNoSuccess(n: nat, steps: seq<Step>, states: seq<State>, k: nat)
    requires IsRun(n, steps, states) && k < |states| && (states[k].failedCount >= n || states[k].ctx == AllFailed)
    ensures forall i: nat :: i < n ==> HasFailed(steps, k, i) && !HasSucceeded(steps, k, i)
  {
    RunInv(n, steps, states, k);
    FullCountMeansAllFailed(n, steps, states, k);
    forall i: nat | i < n ensures HasFailed(steps, k, i) && !HasSucceeded(steps, k, i) {
      OutcomeDecides(n, steps, states, k, i);
      NeverBoth(states[k], i);
    }
  }

  lemma {:induction false} NoDeadlineNotExpired(n: nat, steps: seq<Step>, states: seq<State>, k: nat)
    requires IsRun(n, steps, states) && k < |states| && Deadline !in steps
    ensures states[k].ctx != Expired
  {
    if k > 0 {
      NoDeadlineNotExpired(n, steps, states, k - 1);
      assert Next(states[k - 1], steps[k - 1], states[k]);
      assert steps[k - 1] in steps;
    }
  }

  /** As long as the wait goes on, a racer that has succeeded leaves somebody something to do. */
  lemma SuccessKeepsGoing(s: State, i: nat)
    requires Inv(s) && s.ctx == Active && i < |s.racers| && Succeeded(s.racers[i])
    ensures exists step :: Internal(step) && Enabled(s, step)
  {
    assert RacerInv(s, i);
    if s.racers[i].pc == Counting {
      assert Enabled(s, Local(i));
    } else if s.waiter.Succeeding? {
      assert Enabled(s, Proceed);
    } else {
      var first := s.first;
      assert RacerInv(s, first);
      assert Enabled(s, if s.racers[first].pc == Selecting then Rendezvous(first) else Local(first));
    }
  }

  /** A response with status 200 wins: a run in which one comes back, the deadline does not pass, and
      nobody has anything left to do has returned a response. */
  lemma SuccessWins(n: nat, steps: seq<Step>, states: seq<State>, j: nat, i: nat)
    requires IsRun(n, steps, states) && Deadline !in steps
    requires j < |steps| && i < n && Succeeds(steps[j], i)
    requires forall step :: Enabled(states[|steps|], step) ==> !Internal(step)
    ensures states[|steps|].waiter.Returned? && states[|steps|].waiter.result.Winner?
  {
    var k, s := |steps|, states[|steps|];
    RunInv(n, steps, states, k);
    NoDeadlineNotExpired(n, steps, states, k);
    OutcomeDecides(n, steps, states, k, i);
    assert HasSucceeded(steps, k, i);
    if s.ctx == Active {
      SuccessKeepsGoing(s, i);
    } else if s.ctx == AllFailed {
      AllFailedMeansNoSuccess(n, steps, states, k);
    }
  }

  /** The response the call returns has status 200. */
  lemma WinnerSucceeded(n: nat, steps: seq<Step>, states: seq<State>, k: nat)
    requires IsRun(n, steps, states) && k < |states|
    requires states[k].waiter.Returned? && states[k].waiter.result.Winner?
    ensures var w := states[k].waiter.result.index; w < n && HasSucceeded(steps, k, w)
  {
    RunInv(n, steps, states, k);
    var w := states[k].waiter.result.index;
    assert RacerInv(states[k], w);
    OutcomeDecides(n, steps, states, k, w);
  }

  /** The wait is over, nobody has received a response, and nobody offers one. */
  predicate NothingOffered(s: State) {
    s.ctx != Active && s.waiter == Checking && forall i :: 0 <= i < |s.racers| ==> s.racers[i].pc != Selecting
  }

  /** The waiter has given up on a response. */
  predicate GivenUp(s: State) {
    s.waiter.CancellingAll? || s.waiter.ReadingError? || (s.waiter.Returned? && s.waiter.result.Error?)
  }

  lemma GivesUpAfterLooking(s: State, step: Step)
    requires Inv(s) && Enabled(s, step) && GivenUp(Apply(s, step))
    ensures GivenUp(s) || NothingOffered(s)
  {
  }

  /** An error is returned only after a moment at which the wait was over and no response was
      offered: one that is offered when the deadline passes is preferred to the timeout. */
  lemma {:induction false} ErrorMeansNothingOffered(n: nat, steps: seq<Step>, states: seq<State>, k: nat)
    requires IsRun(n, steps, states) && k < |states| && GivenUp(states[k])
    ensures exists j :: 0 <= j < k && NothingOffered(states[j])
  {
    if k > 0 {
      RunInv(n, steps, states, k - 1);
      assert Next(states[k - 1], steps[k - 1], states[k]);
      GivesUpAfterLooking(states[k - 1], steps[k - 1]);
      if GivenUp(states[k - 1]) { ErrorMeansNothingOffered(n, steps, states, k - 1); }
    }
  }

  /** The error names the racers that have joined theirs when it is read, and no others. */
  ghost predicate ReadAt(s: State, joined: seq<nat>) {
    s.waiter == ReadingError && forall i: nat :: i < |s.racers| ==> (i in joined <==> s.racers[i].joined)
  }

  lemma ReturnReadsErrors(s: State, step: Step)
    requires Inv(s) && Enabled(s, step)
    requires Apply(s, step).waiter.Returned? && Apply(s, step).waiter.result.Error?
    ensures Apply(s, step).waiter == s.waiter || ReadAt(s, Apply(s, step).waiter.result.joined)
  {
  }

  lemma OwnJoins(s: State, i: nat)
    requires HasOwnStep(s, i) && RacerInv(s, i)
    ensures |LocalStep(s, i).racers| == |s.racers| && LocalStep(s, i).racers[i].failed == s.racers[i].failed
    ensures LocalStep(s, i).racers[i].joined ==> s.racers[i].joined || s.racers[i].failed
  {
  }

  lemma StepJoins(s: State, step: Step, i: nat)
    requires Enabled(s, step) && i < |s.racers| && RacerInv(s, i)
    requires s.racers[i].joined ==> s.racers[i].failed
    ensures i < |Apply(s, step).racers|
    ensures Apply(s, step).racers[i].joined ==> Apply(s, step).racers[i].failed
  {
    if step.Local? || step.PageRead? {
      if i == step.i { OwnJoins(s, i); } else { OthersOutcome(s, step.i, i); }
    }
  }

  /** Only a racer whose request has failed joins an error. */
  lemma {:induction false} JoinedHasFailed(n: nat, steps: seq<Step>, states: seq<State>, k: nat, i: nat)
    requires IsRun(n, steps, states) && k < |states| && i < n
    ensures |states[k].racers| == n
    ensures states[k].racers[i].joined ==> states[k].racers[i].failed
  {
    if k > 0 {
      RacerInRun(n, steps, states, k - 1, i);
      JoinedHasFailed(n, steps, states, k - 1, i);
      assert Next(states[k - 1], steps[k - 1], states[k]);
      StepJoins(states[k - 1], steps[k - 1], i);
    }
    RacerInRun(n, steps, states, k, i);
  }

  lemma {:induction false} ErrorIsRead(n: nat, steps: seq<Step>, states: seq<State>, k: nat)
    requires IsRun(n, steps, states) && k < |states|
    requires states[k].waiter.Returned? && states[k].waiter.result.Error?
    ensures exists j :: 0 <= j < k && ReadAt(states[j], states[k].waiter.result.joined)
  {
    if k > 0 {
      RunInv(n, steps, states, k - 1);
      assert Next(states[k - 1], steps[k - 1], states[k]);
      ReturnReadsErrors(states[k - 1], steps[k - 1]);
      if states[k - 1].waiter == states[k].waiter { ErrorIsRead(n, steps, states, k - 1); }
    }
  }

  /** An error that is returned names failed requests only, and all whose error was joined by the
      time it was read. */
  lemma ErrorNamesTheFailed(n: nat, steps: seq<Step>, states: seq<State>, k: nat)
    requires IsRun(n, steps, states) && k < |states|
    requires states[k].waiter.Returned? && states[k].waiter.result.Error?
    ensures exists j :: 0 <= j < k && ReadAt(states[j], states[k].waiter.result.joined)
    ensures forall i: nat :: i < n && i in states[k].waiter.result.joined ==> HasFailed(steps, k, i)
  {
    ErrorIsRead(n, steps, states, k);
    var joined := states[k].waiter.result.joined;
    var j :| 0 <= j < k && ReadAt(states[j], joined);
    RunInv(n, steps, states, j);
    forall i: nat | i < n && i in joined ensures HasFailed(steps, k, i) {
      JoinedHasFailed(n, steps, states, j, i);
      OutcomeDecides(n, steps, states, j, i);
    }
  }
}
