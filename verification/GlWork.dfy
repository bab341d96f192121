/** The call queue of libcore/gomobile/gl/work.go: calls made on one goroutine run in batches on
    the thread that owns the GL context. */
module GlWork {
  import opened Common

  /** A call of the GL driver: its arguments, and the memory it points at. */
  datatype Op = Op(args: int, data: int)
  datatype Call = Call(op: Op, blocking: bool)

  /** What the driver returns for the last of a list of operations, after the ones before it. */
  type Driver = seq<Op> -> int

  const WORKBUF_LEN := 3

  function Ops(calls: seq<Call>): (ops: seq<Op>)
    ensures |ops| == |calls|
  {
    seq(|calls|, k requires 0 <= k < |calls| => calls[k].op)
  }

  // ---------------------------------------------------------------- one batch

  /** The argument slots the worker reuses from batch to batch, and what the driver has run. */
  class Slots {
    const driver: Driver
    const cargs: array<int>
    const parg: array<int>
    var log: seq<Op>

    constructor (driver: Driver)
      ensures Valid() && fresh(cargs) && fresh(parg) && log == [] && this.driver == driver
    {
      this.driver, log := driver, [];
      cargs, parg := new int[WORKBUF_LEN], new int[WORKBUF_LEN];
    }

    ghost predicate Valid() {
      cargs.Length == WORKBUF_LEN && parg.Length == WORKBUF_LEN && cargs != parg
    }

    method ProcessFn(args: int, data: int) returns (ret: int)
      modifies this`log
      ensures log == old(log) + [Op(args, data)] && ret == driver(log)
    {
      log := log + [Op(args, data)];
      ret := driver(log);
    }

    /** process: the first `count` slots, in order; the result is the last one's. */
    method Process(count: nat, ghost batch: seq<Op>) returns (ret: int)
      requires Valid() && 1 <= count == |batch| <= WORKBUF_LEN
      requires forall k :: 0 <= k < count ==> Op(cargs[k], parg[k]) == batch[k]
      modifies this`log
      ensures log == old(log) + batch && ret == driver(log)
    {
      ret := ProcessFn(cargs[0], parg[0]);
      if count > 1 {
        ret := ProcessFn(cargs[1], parg[1]);
      }
      if count > 2 {
        ret := ProcessFn(cargs[2], parg[2]);
      }
    }

    /** The second half of DoWork's loop: whatever older batches have left in the slots, a batch
        runs its own calls in order and yields the result of its last call. */
    method RunBatch(queue: seq<Call>) returns (ret: int)
      requires Valid() && 1 <= |queue| <= WORKBUF_LEN
      modifies this`log, cargs, parg
      ensures log == old(log) + Ops(queue) && ret == driver(log)
    {
      for i := 0 to |queue|
        invariant forall k :: 0 <= k < i ==> cargs[k] == queue[k].op.args && parg[k] == queue[k].op.data
        invariant log == old(log)
      {
        cargs[i], parg[i] := queue[i].op.args, queue[i].op.data;
      }
      ret := Process(|queue|, Ops(queue));
    }
  }

  // ---------------------------------------------------------------- the protocol

  /** Where the goroutine that makes the calls is: between calls, at `work <- c`, at the wake-up
      select, or waiting for the value of a blocking call. */
  datatype Producer = Idle | Sending(call: Call) | Signalling(blocking: bool) | Waiting

  /** Where the worker is: at the wake-up channel, at the first select of DoWork's loop, filling
      its queue, with `ran` calls of a batch run, or sending a value. */
  datatype Drainer =
    | Parked
    | Top
    | Filling(queue: seq<Call>)
    | Running(batch: seq<Call>, ran: nat, ret: int)
    | Replying(value: int)

  datatype State = State(
    producer: Producer,
    worker: Drainer,
    /** The buffered channel of calls and the one-slot wake-up channel. */
    work: seq<Call>,
    token: bool,
    /** What has happened: the calls sent, the operations run, the values returned. */
    issued: seq<Call>,
    executed: seq<Op>,
    results: seq<int>
  )

  datatype Step =
    | Begin(call: Call) | Send | Signal
    | Wake | TakeFirst | GiveUp | TakeMore | Stop | Execute | Finish | Reply

  const START := State(Idle, Parked, [], false, [], [], [])

  predicate Full(queue: seq<Call>) {
    |queue| >= WORKBUF_LEN || (queue != [] && queue[|queue| - 1].blocking)
  }

  predicate Enabled(s: State, e: Step) {
    match e
    case Begin(_) => s.producer == Idle
    case Send => s.producer.Sending? && |s.work| < WORKBUF_LEN
    case Signal => s.producer.Signalling?
    case Wake => s.worker == Parked && s.token
    case TakeFirst => s.worker == Top && s.work != []
    case GiveUp => s.worker == Top && s.work == []
    case TakeMore => s.worker.Filling? && !Full(s.worker.queue) && s.work != []
    case Stop => s.worker.Filling? && (Full(s.worker.queue) || s.work == [])
    case Execute => s.worker.Running? && s.worker.ran < |s.worker.batch|
    case Finish => s.worker.Running? && s.worker.batch != [] && s.worker.ran == |s.worker.batch|
    case Reply => s.worker.Replying? && s.producer == Waiting
  }

  function Apply(driver: Driver, s: State, e: Step): State
    requires Enabled(s, e)
  {
    match e
    case Begin(call) => s.(producer := Sending(call))
    case Send =>
      s.(producer := Signalling(s.producer.call.blocking), work := s.work + [s.producer.call],
         issued := s.issued + [s.producer.call])
    case Signal => s.(producer := if s.producer.blocking then Waiting else Idle, token := true)
    case Wake => s.(worker := Top, token := false)
    case TakeFirst => s.(worker := Filling([s.work[0]]), work := s.work[1..])
    case GiveUp => s.(worker := Parked)
    case TakeMore => s.(worker := Filling(s.worker.queue + [s.work[0]]), work := s.work[1..])
    case Stop => s.(worker := Running(s.worker.queue, 0, 0))
    case Execute =>
      var log := s.executed + [s.worker.batch[s.worker.ran].op];
      s.(worker := s.worker.(ran := s.worker.ran + 1, ret := driver(log)), executed := log)
    case Finish =>
      s.(worker := if s.worker.batch[|s.worker.batch| - 1].blocking then Replying(s.worker.ret) else Top)
    case Reply => s.(worker := Top, producer := Idle, results := s.results + [s.worker.value])
  }

  /** A run from the start. */
  ghost predicate IsRun(driver: Driver, run: seq<State>, steps: seq<Step>) {
    && |run| == |steps| + 1 && run[0] == START
    && forall k :: 0 <= k < |steps| ==> Enabled(run[k], steps[k]) && run[k + 1] == Apply(driver, run[k], steps[k])
  }

  // ---------------------------------------------------------------- the specification

  /** The values blocking calls get when every call is run at once. */
  function Direct(driver: Driver, calls: seq<Call>): seq<int> {
    if calls == [] then []
    else
      var before := Direct(driver, calls[..|calls| - 1]);
      if calls[|calls| - 1].blocking then before + [driver(Ops(calls))] else before
  }

  // ---------------------------------------------------------------- what every step keeps

  predicate AwaitsReply(p: Producer) {
    p == Waiting || p == Signalling(true)
  }

  /** The batch the worker holds. */
  function Held(w: Drainer): seq<Call> {
    if w.Filling? then w.queue else if w.Running? then w.batch else []
  }

  /** The part of it still to be run. */
  function Unrun(w: Drainer): seq<Call> {
    if w.Filling? then w.queue else if w.Running? && w.ran <= |w.batch| then w.batch[w.ran..] else []
  }

  function InFlight(s: State): seq<Call> {
    Held(s.worker) + s.work
  }

  function ToRun(s: State): seq<Call> {
    Unrun(s.worker) + s.work
  }

  predicate NoneBlocking(calls: seq<Call>) {
    forall k :: 0 <= k < |calls| ==> !calls[k].blocking
  }

  predicate OnlyLastBlocking(calls: seq<Call>) {
    calls != [] && calls[|calls| - 1].blocking && NoneBlocking(calls[..|calls| - 1])
  }

  /** Nothing is lost or reordered. */
  predicate Conserved(s: State) {
    s.executed + Ops(ToRun(s)) == Ops(s.issued)
  }

  /** The channel and the batch fit their buffers. */
  predicate Bounded(s: State) {
    && |s.work| <= WORKBUF_LEN
    && (s.worker.Filling? || s.worker.Running? ==> 1 <= |Held(s.worker)| <= WORKBUF_LEN)
    && (s.worker.Running? ==> s.worker.ran <= |s.worker.batch|)
  }

  /** A blocking call is the last of everything in flight, and the producer waits for it. */
  predicate BlockingLast(s: State) {
    if s.worker.Replying? then AwaitsReply(s.producer) && s.work == []
    else if AwaitsReply(s.producer) then OnlyLastBlocking(InFlight(s))
    else NoneBlocking(InFlight(s))
  }

  /** The worker's value belongs to the last operation run. */
  predicate ValueIsOwn(driver: Driver, s: State) {
    && (s.worker.Running? && s.worker.ran > 0 ==> s.worker.ret == driver(s.executed))
    && (s.worker.Replying? ==> s.worker.value == driver(s.executed))
  }

  /** The values returned are those of calls run at once, but for the one being waited for. */
  predicate ResultsAgree(driver: Driver, s: State) {
    if AwaitsReply(s.producer)
    then
      && s.issued != [] && s.issued[|s.issued| - 1].blocking
      && Direct(driver, s.issued) == s.results + [driver(Ops(s.issued))]
    else Direct(driver, s.issued) == s.results
  }

  /** Work is never left to a parked worker without a wake-up. */
  predicate NoLostWakeUp(s: State) {
    s.work != [] ==> s.token || s.worker != Parked || s.producer.Signalling?
  }

  predicate Inv(driver: Driver, s: State) {
    Conserved(s) && Bounded(s) && BlockingLast(s) && ValueIsOwn(driver, s) && ResultsAgree(driver, s) && NoLostWakeUp(s)
  }

  lemma OpsOfBoth(a: seq<Call>, b: seq<Call>)
    ensures Ops(a + b) == Ops(a) + Ops(b)
  {
  }

  lemma OneMoreCall(calls: seq<Call>, last: Call)
    requires NoneBlocking(calls)
    ensures last.blocking ==> OnlyLastBlocking(calls + [last])
    ensures !last.blocking ==> NoneBlocking(calls + [last])
  {
    assert (calls + [last])[..|calls|] == calls;
  }

  /** Where a blocking call can be when it ends the first of two lists. */
  lemma BlockingEnds(a: seq<Call>, b: seq<Call>)
    requires a != []
    ensures OnlyLastBlocking(a + b) && a[|a| - 1].blocking ==> b == []
    ensures OnlyLastBlocking(a + b) && !a[|a| - 1].blocking ==> OnlyLastBlocking(b)
    ensures NoneBlocking(a + b) ==> NoneBlocking(b) && !a[|a| - 1].blocking
  {
    var all := a + b;
    assert all[|a| - 1] == a[|a| - 1];
    assert all[|a|..] == b;
    if OnlyLastBlocking(all) {
      assert b != [] ==> all[|all| - 1] == b[|b| - 1] && all[..|all| - 1][|a| - 1] == a[|a| - 1];
      assert b != [] ==> all[..|all| - 1][|a|..] == b[..|b| - 1];
    }
  }

  lemma SendKeepsResults(driver: Driver, s: State)
    requires ResultsAgree(driver, s) && Enabled(s, Send)
    ensures ResultsAgree(driver, Apply(driver, s, Send))
  {
    var t := Apply(driver, s, Send);
    assert t.issued[..|s.issued|] == s.issued;
  }

  lemma Appended<A>(a: seq<A>, b: seq<A>, x: A)
    ensures a + (b + [x]) == a + b + [x]
  {
  }

  lemma Moved<A>(a: seq<A>, b: seq<A>)
    requires b != []
    ensures a + [b[0]] + b[1..] == a + b
    ensures [b[0]] + b[1..] == [] + b
  {
  }

  lemma Dropped<A>(a: seq<A>, b: seq<A>, k: nat)
    requires k < |a|
    ensures a[k..] + b == [a[k]] + (a[k + 1..] + b)
  {
  }

  lemma SendConserves(driver: Driver, s: State)
    requires Conserved(s) && Enabled(s, Send)
    ensures Conserved(Apply(driver, s, Send))
  {
    var call := s.producer.call;
    Appended(Unrun(s.worker), s.work, call);
    OpsOfBoth(ToRun(s), [call]);
    OpsOfBoth(s.issued, [call]);
    Associate(s.executed, Ops(ToRun(s)), [call.op]);
  }

  lemma SendKeepsInv(driver: Driver, s: State)
    requires Inv(driver, s) && Enabled(s, Send)
    ensures Inv(driver, Apply(driver, s, Send))
  {
    Appended(Held(s.worker), s.work, s.producer.call);
    OneMoreCall(InFlight(s), s.producer.call);
    SendConserves(driver, s);
    SendKeepsResults(driver, s);
  }

  lemma TakeMovesOne(driver: Driver, s: State, e: Step)
    requires (e == TakeFirst || e == TakeMore) && Enabled(s, e)
    ensures ToRun(Apply(driver, s, e)) == ToRun(s) && InFlight(Apply(driver, s, e)) == InFlight(s)
  {
    if e == TakeFirst { Moved([], s.work); } else { Moved(s.worker.queue, s.work); }
  }

  lemma ExecuteConserves(driver: Driver, s: State)
    requires Conserved(s) && Bounded(s) && Enabled(s, Execute)
    ensures Conserved(Apply(driver, s, Execute))
  {
    var t, k := Apply(driver, s, Execute), s.worker.ran;
    var next := s.worker.batch[k];
    Dropped(s.worker.batch, s.work, k);
    assert ToRun(s) == [next] + ToRun(t);
    OpsOfBoth([next], ToRun(t));
    assert Ops([next]) == [next.op];
    Associate(s.executed, [next.op], Ops(ToRun(t)));
  }

  lemma FinishRunsNothing(driver: Driver, s: State)
    requires Bounded(s) && Enabled(s, Finish)
    ensures ToRun(Apply(driver, s, Finish)) == ToRun(s)
  {
    assert Unrun(s.worker) == [] && Unrun(Apply(driver, s, Finish).worker) == [];
  }

  lemma RestOf(batch: seq<Call>, work: seq<Call>, awaits: bool)
    requires batch != [] && if awaits then OnlyLastBlocking(batch + work) else NoneBlocking(batch + work)
    ensures batch[|batch| - 1].blocking ==> awaits && work == []
    ensures !batch[|batch| - 1].blocking ==> if awaits then OnlyLastBlocking(work) else NoneBlocking(work)
  {
    BlockingEnds(batch, work);
  }

  /** A batch that has run leaves the rest of what is in flight. */
  lemma FinishLeavesTheRest(driver: Driver, s: State)
    requires Bounded(s) && BlockingLast(s) && Enabled(s, Finish)
    ensures BlockingLast(Apply(driver, s, Finish))
  {
    RestOf(s.worker.batch, s.work, AwaitsReply(s.producer));
    assert [] + s.work == s.work;
  }

  /** Steps that change neither what was issued, run and returned nor where the producer is. */
  lemma Unchanged(driver: Driver, s: State, t: State)
    requires Conserved(s) && ResultsAgree(driver, s)
    requires t.producer == s.producer && t.issued == s.issued && t.executed == s.executed && t.results == s.results
    requires ToRun(t) == ToRun(s)
    ensures Conserved(t) && ResultsAgree(driver, t)
  {
  }

  lemma ReplyKeepsInv(driver: Driver, s: State)
    requires Inv(driver, s) && Enabled(s, Reply)
    ensures Inv(driver, Apply(driver, s, Reply))
  {
    assert s.executed == Ops(s.issued);
  }

  lemma TakeKeepsInv(driver: Driver, s: State, e: Step)
    requires Inv(driver, s) && (e == TakeFirst || e == TakeMore) && Enabled(s, e)
    ensures Inv(driver, Apply(driver, s, e))
  {
    TakeMovesOne(driver, s, e);
    Unchanged(driver, s, Apply(driver, s, e));
  }

  lemma StopKeepsInv(driver: Driver, s: State)
    requires Inv(driver, s) && Enabled(s, Stop)
    ensures Inv(driver, Apply(driver, s, Stop))
  {
    var t := Apply(driver, s, Stop);
    assert ToRun(t) == ToRun(s) && InFlight(t) == InFlight(s);
    Unchanged(driver, s, t);
  }

  lemma ExecuteKeepsInv(driver: Driver, s: State)
    requires Inv(driver, s) && Enabled(s, Execute)
    ensures Inv(driver, Apply(driver, s, Execute))
  {
    ExecuteConserves(driver, s);
    assert InFlight(Apply(driver, s, Execute)) == InFlight(s);
  }

  lemma FinishKeepsInv(driver: Driver, s: State)
    requires Inv(driver, s) && Enabled(s, Finish)
    ensures Inv(driver, Apply(driver, s, Finish))
  {
    FinishRunsNothing(driver, s);
    FinishLeavesTheRest(driver, s);
    Unchanged(driver, s, Apply(driver, s, Finish));
  }

  /** The steps that move no call. */
  lemma IdleKeepsInv(driver: Driver, s: State, e: Step)
    requires Inv(driver, s) && Enabled(s, e)
    requires e.Begin? || e == Signal || e == Wake || e == GiveUp
    ensures Inv(driver, Apply(driver, s, e))
  {
    var t := Apply(driver, s, e);
    assert ToRun(t) == ToRun(s) && InFlight(t) == InFlight(s);
  }

  lemma StepKeepsInv(driver: Driver, s: State, e: Step)
    requires Inv(driver, s) && Enabled(s, e)
    ensures Inv(driver, Apply(driver, s, e))
  {
    match e
    case Begin(_) => IdleKeepsInv(driver, s, e);
    case Send => SendKeepsInv(driver, s);
    case Signal => IdleKeepsInv(driver, s, e);
    case Wake => IdleKeepsInv(driver, s, e);
    case TakeFirst => TakeKeepsInv(driver, s, e);
    case GiveUp => IdleKeepsInv(driver, s, e);
    case TakeMore => TakeKeepsInv(driver, s, e);
    case Stop => StopKeepsInv(driver, s);
    case Execute => ExecuteKeepsInv(driver, s);
    case Finish => FinishKeepsInv(driver, s);
    case Reply => ReplyKeepsInv(driver, s);
  }

  lemma {:induction false} RunInv(driver: Driver, run: seq<State>, steps: seq<Step>, k: nat)
    requires IsRun(driver, run, steps) && k < |run|
    ensures Inv(driver, run[k])
  {
    if k > 0 {
      RunInv(driver, run, steps, k - 1);
      StepKeepsInv(driver, run[k - 1], steps[k - 1]);
    }
  }

  // ---------------------------------------------------------------- main results

  /** At every moment of every run: the operations run are a beginning of the calls made, in the
      order they were made, and the values returned are those the calls would have had one by
      one, but for the call being waited for. */
  lemma RunsInOrder(driver: Driver, run: seq<State>, steps: seq<Step>, k: nat)
    requires IsRun(driver, run, steps) && k < |run|
    ensures run[k].executed <= Ops(run[k].issued)
    ensures run[k].results <= Direct(driver, run[k].issued) && |Direct(driver, run[k].issued)| <= |run[k].results| + 1
    ensures run[k].worker.Running? && run[k].worker.batch != [] ==>
              NoneBlocking(run[k].worker.batch[..|run[k].worker.batch| - 1])
  {
    RunInv(driver, run, steps, k);
    var s := run[k];
    if s.worker.Running? {
      var batch := s.worker.batch;
      assert InFlight(s)[..|InFlight(s)| - 1][..|batch| - 1] == batch[..|batch| - 1];
      assert InFlight(s)[..|batch| - 1] == batch[..|batch| - 1];
    }
  }

  /** A value is handed over only when every call up to its own has run, and it is the driver's
      result for that call. */
  lemma ValueReturned(driver: Driver, s: State)
    requires Inv(driver, s) && Enabled(s, Reply)
    ensures s.issued != [] && s.issued[|s.issued| - 1].blocking && s.executed == Ops(s.issued)
    ensures s.worker.value == driver(Ops(s.issued))
    ensures Apply(driver, s, Reply).results == Direct(driver, s.issued)
  {
    assert ToRun(s) == [];
  }

  /** A batch that starts is three calls, or ends with a blocking one, or is all there was. */
  lemma BatchesAreFilled(driver: Driver, s: State, e: Step)
    requires Inv(driver, s) && Enabled(s, e)
    requires !s.worker.Running? && Apply(driver, s, e).worker.Running?
    ensures var batch := Apply(driver, s, e).worker.batch;
            && batch != [] && Apply(driver, s, e).worker.ran == 0
            && (|batch| == WORKBUF_LEN || batch[|batch| - 1].blocking || s.work == [])
  {
  }

  /** Everything made has been done. */
  predicate Settled(driver: Driver, s: State) {
    && s.producer == Idle && s.worker == Parked && !s.token && s.work == []
    && s.executed == Ops(s.issued) && s.results == Direct(driver, s.issued)
  }

  /** The step the two goroutines can take on their own. */
  function NextStep(s: State): Step {
    match s.worker
    case Top => if s.work != [] then TakeFirst else GiveUp
    case Filling(queue) => if Full(queue) || s.work == [] then Stop else TakeMore
    case Running(batch, ran, _) => if ran < |batch| then Execute else Finish
    case Replying(_) => if s.producer == Waiting then Reply else Signal
    case Parked =>
      if s.token then Wake else if s.producer.Signalling? then Signal else Send
  }

  /** No deadlock and no lost wake-up: unless everything has been done, something other than a
      new call can happen. */
  lemma NeverStuck(driver: Driver, s: State)
    requires Inv(driver, s) && !Settled(driver, s)
    ensures !NextStep(s).Begin? && Enabled(s, NextStep(s))
  {
    if s.worker == Parked && !s.token && !s.producer.Signalling? {
      assert s.work == [];
      assert InFlight(s) == [] && ToRun(s) == [];
      assert Ops([]) == [];
    }
  }

  // ---------------------------------------------------------------- runs come to an end

  function ProducerWork(p: Producer): nat {
    if p.Sending? then 9 else if p.Signalling? then 3 else 0
  }

  function WorkerWork(w: Drainer): nat {
    match w
    case Parked => 0
    case Top => 1
    case Filling(queue) => 4 + |queue|
    case Running(batch, ran, _) => 3 + (if ran <= |batch| then |batch| - ran else 0)
    case Replying(_) => 2
  }

  /** The steps still to come if no further call is made. */
  function Measure(s: State): nat {
    ProducerWork(s.producer) + WorkerWork(s.worker) + 5 * |s.work| + if s.token then 2 else 0
  }

  lemma MeasureDrops(driver: Driver, s: State, e: Step)
    requires Enabled(s, e)
    ensures e.Begin? ==> Measure(Apply(driver, s, e)) == Measure(s) + 9
    ensures !e.Begin? ==> Measure(Apply(driver, s, e)) < Measure(s)
  {
  }

  /** The calls made, in order. */
  function CallsOf(steps: seq<Step>): seq<Call> {
    if steps == [] then []
    else CallsOf(steps[..|steps| - 1]) + if steps[|steps| - 1].Begin? then [steps[|steps| - 1].call] else []
  }

  /** The call that is made and not sent yet. */
  function Unsent(p: Producer): seq<Call> {
    if p.Sending? then [p.call] else []
  }

  lemma StepMakesCall(driver: Driver, s: State, e: Step)
    requires Enabled(s, e)
    ensures var t := Apply(driver, s, e);
            t.issued + Unsent(t.producer) == s.issued + Unsent(s.producer) + if e.Begin? then [e.call] else []
  {
  }

  /** What is issued is what has been called, in order, but for the call that waits for room. */
  lemma {:induction false} IssuedAreTheCalls(driver: Driver, run: seq<State>, steps: seq<Step>, k: nat)
    requires IsRun(driver, run, steps) && k < |run|
    ensures run[k].issued + Unsent(run[k].producer) == CallsOf(steps[..k])
  {
    if k > 0 {
      IssuedAreTheCalls(driver, run, steps, k - 1);
      StepMakesCall(driver, run[k - 1], steps[k - 1]);
      assert steps[..k][..k - 1] == steps[..k - 1];
    }
  }

  lemma {:induction false} StepsAreBounded(driver: Driver, run: seq<State>, steps: seq<Step>)
    requires IsRun(driver, run, steps)
    ensures |steps| + Measure(run[|steps|]) <= 10 * |CallsOf(steps)|
  {
    if steps != [] {
      var n := |steps| - 1;
      assert IsRun(driver, run[..n + 1], steps[..n]);
      StepsAreBounded(driver, run[..n + 1], steps[..n]);
      assert run[n + 1] == Apply(driver, run[n], steps[n]);
      MeasureDrops(driver, run[n], steps[n]);
    }
  }

  /** A run with n calls has at most 10n steps, and when it cannot go on without a new call, every
      call has run in order and every blocking call has its own value: the queue is equivalent
      to making the calls one by one. */
  lemma EquivalentToDirectCalls(driver: Driver, run: seq<State>, steps: seq<Step>)
    requires IsRun(driver, run, steps)
    ensures |steps| <= 10 * |CallsOf(steps)|
    ensures !Enabled(run[|steps|], NextStep(run[|steps|])) ==>
              && Settled(driver, run[|steps|])
              && run[|steps|].executed == Ops(CallsOf(steps))
              && run[|steps|].results == Direct(driver, CallsOf(steps))
  {
    IssuedAreTheCalls(driver, run, steps, |steps|);
    assert steps[..|steps|] == steps;
    assert run[|steps|].issued + [] == run[|steps|].issued;
    StepsAreBounded(driver, run, steps);
    RunInv(driver, run, steps, |steps|);
    if !Settled(driver, run[|steps|]) { NeverStuck(driver, run[|steps|]); }
  }
}
