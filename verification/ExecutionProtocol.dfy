/**
 * The two-channel execution protocol (`execution_engine.rs`): the engine submits commands and polls completions, a
 * worker thread executes the commands. Interleavings are runs of a state machine over the calls and the worker's steps.
 */
module ExecutionProtocol {
  import opened Basics

  /** Identifiers are `u64` and wrap around. */
  const TWO64: nat := 0x1_0000_0000_0000_0000

  datatype Command<B> = Command(id: nat, batch: B)

  datatype Completion<O> = Completion(id: nat, outcome: O)

  /** The worker thread: waiting, executing, unwinding after a panic, or past its loop. */
  datatype Worker<B> = Idle | Busy(command: Command<B>) | Stopped | Finished

  /**
   * `sending` and `joined` are the engine's two handles, `receiving` and `reporting` the worker's two channel ends.
   * The last four fields are history: what was accepted, executed, lost to a stopped worker, and handed out.
   */
  datatype State<B, O> = State(
    sending: bool, nextId: nat, inFlight: nat, joined: bool,
    commands: seq<Command<B>>, completions: seq<Completion<O>>,
    worker: Worker<B>, receiving: bool, reporting: bool, shutdowns: nat,
    submitted: seq<Command<B>>, executed: seq<Command<B>>, lost: seq<Command<B>>, received: seq<Completion<O>>)

  /** Calls on the engine, then the steps of the worker thread. */
  datatype Event<B, O> =
    | Submit(batch: B)
    | TryRecv
    | Recv
    | CloseSender
    | Join
    | Take
    | Complete(outcome: O)
    | Stop
    | DropReceiver
    | DropReporter
    | Disconnect

  function Spawned<B, O>(): State<B, O> {
    State(true, 0, 0, false, [], [], Idle, true, true, 0, [], [], [], [])
  }

  predicate Ended<B, O>(s: State<B, O>) {
    s.worker.Stopped? || s.worker.Finished?
  }

  /** When a step can happen. `Recv` blocks until there is a completion or no one left to send it. */
  predicate Enabled<B, O>(s: State<B, O>, e: Event<B, O>) {
    match e
    case Submit(_) => s.sending
    case TryRecv => s.sending
    case Recv => s.sending && (s.completions != [] || !s.reporting)
    case CloseSender => s.sending
    case Join => !s.sending && !s.joined && Ended(s) && !s.receiving && !s.reporting
    case Take => s.worker.Idle? && s.commands != []
    case Complete(_) => s.worker.Busy?
    case Stop => s.worker.Busy?
    case DropReceiver => Ended(s) && s.receiving
    case DropReporter => Ended(s) && s.reporting
    case Disconnect => s.worker.Idle? && s.commands == [] && !s.sending
  }

  /** The identifier advances whether or not the command is accepted. */
  function AfterSubmit<B, O>(s: State<B, O>, batch: B): State<B, O> {
    var advanced := s.(nextId := (s.nextId + 1) % TWO64);
    if s.sending && s.receiving then
      var c := Command(s.nextId, batch);
      advanced.(commands := s.commands + [c], submitted := s.submitted + [c], inFlight := s.inFlight + 1)
    else advanced
  }

  function SaturatingSub(a: nat, b: nat): nat {
    if a < b then 0 else a - b
  }

  /** A completion, if there is one, leaves the channel; the counter is decremented with saturation. */
  function AfterPoll<B, O>(s: State<B, O>): State<B, O> {
    if s.completions == [] then s
    else s.(completions := s.completions[1..], received := s.received + [s.completions[0]],
            inFlight := SaturatingSub(s.inFlight, 1))
  }

  function Next<B, O>(s: State<B, O>, e: Event<B, O>): State<B, O>
    requires Enabled(s, e)
  {
    match e
    case Submit(batch) => AfterSubmit(s, batch)
    case TryRecv => AfterPoll(s)
    case Recv => AfterPoll(s)
    case CloseSender => s.(sending := false)
    case Join => s.(joined := true)
    case Take => s.(worker := Busy(s.commands[0]), commands := s.commands[1..])
    case Complete(outcome) =>
      s.(worker := Idle, executed := s.executed + [s.worker.command],
         completions := s.completions + [Completion(s.worker.command.id, outcome)])
    case Stop => s.(worker := Stopped, lost := s.lost + [s.worker.command])
    case DropReceiver => s.(receiving := false, lost := s.lost + s.commands, commands := [])
    case DropReporter => s.(reporting := false)
    case Disconnect => s.(worker := Finished, shutdowns := s.shutdowns + 1)
  }

  // ---------- the invariant ----------

  function Hand<B>(w: Worker<B>): seq<Command<B>> {
    if w.Busy? then [w.command] else []
  }

  ghost predicate SameIds<B, O>(c: seq<Command<B>>, d: seq<Completion<O>>) {
    |c| == |d| && forall i :: 0 <= i < |c| ==> c[i].id == d[i].id
  }

  ghost predicate Inv<B, O>(s: State<B, O>) {
    && s.submitted == s.executed + Hand(s.worker) + s.lost + s.commands
    && SameIds(s.executed, s.received + s.completions)
    && s.inFlight == |s.submitted| - |s.received|
    && (s.lost != [] <==> s.worker.Stopped?)
    && (s.worker.Finished? ==> !s.sending && s.commands == [])
    && (!Ended(s) ==> s.receiving && s.reporting)
    && s.shutdowns == (if s.worker.Finished? then 1 else 0)
    && (s.joined ==> !s.sending && Ended(s) && !s.receiving && !s.reporting)
    && (!s.receiving ==> s.commands == [])
  }

  lemma PollInv<B, O>(s: State<B, O>)
    requires Inv(s)
    ensures Inv(AfterPoll(s))
    ensures s.completions != [] ==> s.inFlight > 0
  {
    if s.completions != [] {
      var s' := AfterPoll(s);
      assert s'.received + s'.completions == s.received + s.completions;
    }
  }

  lemma CompleteInv<B, O>(s: State<B, O>, outcome: O)
    requires Inv(s) && s.worker.Busy?
    ensures Inv(Next(s, Complete(outcome)))
  {
    var s' := Next(s, Complete(outcome));
    assert s'.received + s'.completions == (s.received + s.completions) + [Completion(s.worker.command.id, outcome)];
  }

  lemma SubmitInv<B, O>(s: State<B, O>, batch: B)
    requires Inv(s) && s.sending
    ensures Inv(Next(s, Submit(batch)))
  {
    var s', c := Next(s, Submit(batch)), Command(s.nextId, batch);
    if s.receiving {
      assert s'.submitted == s.executed + Hand(s.worker) + s.lost + (s.commands + [c]);
    }
  }

  lemma TakeInv<B, O>(s: State<B, O>)
    requires Inv(s) && Enabled(s, Take)
    ensures Inv(Next(s, Take))
  {
    assert s.commands == [s.commands[0]] + s.commands[1..];
  }

  lemma StopInv<B, O>(s: State<B, O>)
    requires Inv(s) && Enabled(s, Stop)
    ensures Inv(Next(s, Stop))
  {
    assert s.lost == [];
  }

  lemma DropReceiverInv<B, O>(s: State<B, O>)
    requires Inv(s) && Enabled(s, DropReceiver)
    ensures Inv(Next(s, DropReceiver))
  {
    var s' := Next(s, DropReceiver);
    assert s'.submitted == s'.executed + Hand(s'.worker) + s'.lost + s'.commands;
  }

  lemma HandleInv<B, O>(s: State<B, O>, e: Event<B, O>)
    requires Inv(s) && Enabled(s, e) && (e.CloseSender? || e.Join? || e.DropReporter? || e.Disconnect?)
    ensures Inv(Next(s, e))
  {
  }

  /** Every step of every interleaving keeps the invariant. */
  lemma StepInv<B, O>(s: State<B, O>, e: Event<B, O>)
    requires Inv(s) && Enabled(s, e)
    ensures Inv(Next(s, e))
  {
    match e {
      case Submit(batch) => SubmitInv(s, batch);
      case TryRecv => PollInv(s);
      case Recv => PollInv(s);
      case Take => TakeInv(s);
      case Complete(outcome) => CompleteInv(s, outcome);
      case Stop => StopInv(s);
      case DropReceiver => DropReceiverInv(s);
      case _ => HandleInv(s, e);
    }
  }

  // ---------- runs ----------

  ghost predicate Run<B, O>(s: State<B, O>, events: seq<Event<B, O>>)
    decreases |events|
  {
    events == [] || (Enabled(s, events[0]) && Run(Next(s, events[0]), events[1..]))
  }

  ghost function Final<B, O>(s: State<B, O>, events: seq<Event<B, O>>): State<B, O>
    requires Run(s, events)
    decreases |events|
  {
    if events == [] then s else Final(Next(s, events[0]), events[1..])
  }

  lemma {:induction false} RunInv<B, O>(s: State<B, O>, events: seq<Event<B, O>>)
    requires Inv(s) && Run(s, events)
    ensures Inv(Final(s, events))
    decreases |events|
  {
    if events != [] {
      StepInv(s, events[0]);
      RunInv(Next(s, events[0]), events[1..]);
    }
  }

  function Ids<B>(c: seq<Command<B>>): (ids: seq<nat>)
    ensures |ids| == |c| && forall i :: 0 <= i < |c| ==> ids[i] == c[i].id
  {
    seq(|c|, i requires 0 <= i < |c| => c[i].id)
  }

  /**
   * In every run, including those in which the worker stops: the identifiers handed out are an in-order prefix of those
   * accepted, the executed commands are an in-order prefix of the accepted ones, and the counter is exact.
   */
  lemma ProtocolSafe<B, O>(events: seq<Event<B, O>>)
    requires Run(Spawned<B, O>(), events)
    ensures var s := Final(Spawned<B, O>(), events);
            && |s.received| <= |s.executed| && s.executed <= s.submitted
            && SameIds(s.submitted[..|s.received|], s.received)
            && s.inFlight == |s.submitted| - |s.received|
  {
    RunInv(Spawned<B, O>(), events);
    var s := Final(Spawned<B, O>(), events);
    forall i | 0 <= i < |s.received|
      ensures s.received[i].id == s.submitted[i].id
    {
      assert (s.received + s.completions)[i] == s.received[i];
      assert s.executed[i] == s.submitted[i];
    }
  }

  /** The saturating subtraction never saturates: every completion that can be polled was counted. */
  lemma NeverSaturates<B, O>(events: seq<Event<B, O>>)
    requires Run(Spawned<B, O>(), events)
    ensures var s := Final(Spawned<B, O>(), events);
            s.completions != [] ==> AfterPoll(s).inFlight == s.inFlight - 1
  {
    RunInv(Spawned<B, O>(), events);
    PollInv(Final(Spawned<B, O>(), events));
  }

  // ---------- dropping the engine ----------

  lemma {:induction false} StopsAreLasting<B, O>(s: State<B, O>, events: seq<Event<B, O>>)
    requires Run(s, events) && !s.worker.Stopped? && Stop !in events
    ensures !Final(s, events).worker.Stopped?
    decreases |events|
  {
    if events != [] {
      assert events[0] in events;
      StopsAreLasting(Next(s, events[0]), events[1..]);
    }
  }

  /** Without a worker stop, a finished drop has executed every accepted command and then shut the worker down once. */
  lemma DropDrains<B, O>(events: seq<Event<B, O>>)
    requires Run(Spawned<B, O>(), events) && Stop !in events
    requires Final(Spawned<B, O>(), events).joined
    ensures var s := Final(Spawned<B, O>(), events);
            s.executed == s.submitted && s.shutdowns == 1 && |s.received + s.completions| == |s.submitted|
  {
    RunInv(Spawned<B, O>(), events);
    StopsAreLasting(Spawned<B, O>(), events);
  }

  /** The worker is shut down only after everything accepted was executed. */
  lemma ShutdownAfterDrain<B, O>(events: seq<Event<B, O>>)
    requires Run(Spawned<B, O>(), events)
    ensures var s := Final(Spawned<B, O>(), events);
            s.shutdowns > 0 ==> s.shutdowns == 1 && s.executed == s.submitted && s.lost == []
  {
    RunInv(Spawned<B, O>(), events);
  }

  /** Steps the worker thread still has to take before a dropped engine can be joined. */
  function Remaining<B, O>(s: State<B, O>): nat {
    4 * |s.commands|
    + (match s.worker case Busy(_) => 5 case Idle => 4 case _ => 0)
    + (if s.receiving then 1 else 0) + (if s.reporting then 1 else 0) + (if s.joined then 0 else 1)
  }

  predicate WorkerEvent<B, O>(e: Event<B, O>) {
    e.Take? || e.Complete? || e.Stop? || e.DropReceiver? || e.DropReporter? || e.Disconnect?
  }

  /** A drop always gets further: until the join, some step is possible, and every step brings the join closer. */
  lemma DropProgresses<B, O>(s: State<B, O>, outcome: O)
    requires Inv(s) && !s.sending && !s.joined
    ensures exists e: Event<B, O> :: Enabled(s, e) && (WorkerEvent(e) || e.Join?)
    ensures forall e: Event<B, O> :: Enabled(s, e) ==> Remaining(Next(s, e)) < Remaining(s)
  {
    var e: Event<B, O> :=
      match s.worker
      case Busy(_) => Complete(outcome)
      case Idle => if s.commands != [] then Take else Disconnect
      case _ => if s.receiving then DropReceiver else if s.reporting then DropReporter else Join;
    assert Enabled(s, e);
  }

  /** So once the sender is closed, steps of the worker lead to the join. */
  lemma {:induction false} JoinReached<B, O>(s: State<B, O>, outcome: O) returns (steps: seq<Event<B, O>>)
    requires Inv(s) && !s.sending && !s.joined
    ensures Run(s, steps) && Final(s, steps).joined
    ensures forall i :: 0 <= i < |steps| ==> WorkerEvent(steps[i]) || steps[i].Join?
    decreases Remaining(s)
  {
    DropProgresses(s, outcome);
    var e: Event<B, O> :| Enabled(s, e) && (WorkerEvent(e) || e.Join?);
    StepInv(s, e);
    if e.Join? {
      steps := [e];
      assert steps[1..] == [];
    } else {
      var rest := JoinReached(Next(s, e), outcome);
      steps := [e] + rest;
      assert steps[1..] == rest;
    }
  }

  /** Whatever the engine has going on, closing the sender and waiting for the worker ends in the join. */
  lemma DropEnds<B, O>(s: State<B, O>, outcome: O) returns (steps: seq<Event<B, O>>)
    requires Inv(s) && s.sending
    ensures Run(s, [Event.CloseSender] + steps) && Final(s, [Event.CloseSender] + steps).joined
    ensures forall i :: 0 <= i < |steps| ==> WorkerEvent(steps[i]) || steps[i].Join?
  {
    StepInv(s, Event.CloseSender);
    steps := JoinReached(Next(s, Event.CloseSender), outcome);
    assert ([Event.CloseSender] + steps)[1..] == steps;
  }

  // ---------- blocking receives ----------

  ghost predicate WorkerRun<B, O>(s: State<B, O>, steps: seq<Event<B, O>>) {
    Run(s, steps) && forall i :: 0 <= i < |steps| ==> WorkerEvent(steps[i])
  }

  /** While `recv` blocks only the worker moves; stuck means that no such movement ever lets it return. */
  ghost predicate RecvStuck<B(!new), O(!new)>(s: State<B, O>) {
    forall steps: seq<Event<B, O>> :: WorkerRun(s, steps) ==> !Enabled(Final(s, steps), Recv)
  }

  /** Every worker step uses up some of what the worker has left to do. */
  lemma WorkerStepShrinks<B, O>(s: State<B, O>, e: Event<B, O>)
    requires Enabled(s, e) && WorkerEvent(e)
    ensures Remaining(Next(s, e)) < Remaining(s)
  {
  }

  lemma InFlightParts<B, O>(s: State<B, O>)
    requires Inv(s)
    ensures s.inFlight == |s.completions| + |Hand(s.worker)| + |s.lost| + |s.commands|
  {
    assert |s.executed| == |s.received + s.completions|;
  }

  /** With something in flight, a blocked receive leaves the worker something to do. */
  lemma WorkerCanMove<B, O>(s: State<B, O>, outcome: O) returns (e: Event<B, O>)
    requires Inv(s) && s.sending && s.inFlight > 0 && !Enabled(s, Recv)
    ensures Enabled(s, e) && WorkerEvent(e)
  {
    InFlightParts(s);
    e := match s.worker
      case Busy(_) => Complete(outcome)
      case Idle => Take
      case _ => DropReporter;
  }

  /** A worker that keeps moving lets the receive return, after no more steps than it has left. */
  lemma {:induction false} RecvReturns<B, O>(s: State<B, O>, outcome: O) returns (steps: seq<Event<B, O>>)
    requires Inv(s) && s.sending && s.inFlight > 0
    ensures WorkerRun(s, steps) && Enabled(Final(s, steps), Recv) && |steps| <= Remaining(s)
    decreases Remaining(s)
  {
    if Enabled(s, Recv) {
      steps := [];
    } else {
      var e := WorkerCanMove(s, outcome);
      WorkerStepShrinks(s, e);
      StepInv(s, e);
      var rest := RecvReturns(Next(s, e), outcome);
      steps := [e] + rest;
      assert steps[1..] == rest;
    }
  }

  lemma NothingMoves<B, O>(s: State<B, O>, steps: seq<Event<B, O>>)
    requires Inv(s) && s.sending && s.inFlight == 0 && WorkerRun(s, steps)
    ensures steps == [] && !Enabled(s, Recv)
  {
    InFlightParts(s);
  }

  /**
   * In every reachable state, a blocked `recv` waits forever exactly when nothing is in flight, which `in_flight()`
   * tells the caller beforehand.
   */
  lemma RecvStuckIff<B(!new), O(!new)>(events: seq<Event<B, O>>, outcome: O)
    requires Run(Spawned<B, O>(), events) && Final(Spawned<B, O>(), events).sending
    ensures RecvStuck(Final(Spawned<B, O>(), events)) <==> Final(Spawned<B, O>(), events).inFlight == 0
  {
    var s := Final(Spawned<B, O>(), events);
    RunInv(Spawned<B, O>(), events);
    if s.inFlight == 0 {
      forall steps: seq<Event<B, O>> | WorkerRun(s, steps)
        ensures !Enabled(Final(s, steps), Recv)
      {
        NothingMoves(s, steps);
      }
    } else {
      var steps := RecvReturns(s, outcome);
    }
  }

  /** The shortest such run: receiving from an engine that was just spawned. */
  lemma RecvAfterSpawnIsStuck<B(!new), O(!new)>()
    ensures Run<B, O>(Spawned<B, O>(), []) && RecvStuck(Spawned<B, O>())
  {
    var s := Spawned<B, O>();
    forall steps: seq<Event<B, O>> | WorkerRun(s, steps)
      ensures !Enabled(Final(s, steps), Recv)
    {
      NothingMoves(s, steps);
    }
  }

  /** A poll that reports a stopped worker has nothing left to deliver: all executed commands were handed out. */
  lemma StoppedMeansDelivered<B, O>(s: State<B, O>)
    requires Inv(s) && s.completions == [] && !s.reporting
    ensures SameIds(s.executed, s.received) && Ended(s)
    ensures s.sending ==> s.worker.Stopped? && s.inFlight == |s.lost| + |s.commands| > 0
  {
    assert s.received + s.completions == s.received;
  }

  // ---------- identifiers ----------

  /** How many submissions were attempted. */
  ghost function Attempts<B, O>(events: seq<Event<B, O>>): nat {
    if events == [] then 0 else (if events[0].Submit? then 1 else 0) + Attempts(events[1..])
  }

  /** Identifiers given out so far ascend and stay below the next one. */
  ghost predicate Ascending<B, O>(s: State<B, O>) {
    && (forall i, j :: 0 <= i < j < |s.submitted| ==> s.submitted[i].id < s.submitted[j].id)
    && (forall i :: 0 <= i < |s.submitted| ==> s.submitted[i].id < s.nextId)
  }

  lemma AscendStep<B, O>(s: State<B, O>, e: Event<B, O>)
    requires Enabled(s, e) && Ascending(s) && (e.Submit? ==> s.nextId + 1 < TWO64)
    ensures Ascending(Next(s, e)) && Next(s, e).nextId == s.nextId + (if e.Submit? then 1 else 0)
  {
  }

  lemma {:induction false} IdsAscend<B, O>(s: State<B, O>, events: seq<Event<B, O>>)
    requires Run(s, events) && Ascending(s) && s.nextId + Attempts(events) < TWO64
    ensures Ascending(Final(s, events)) && Final(s, events).nextId == s.nextId + Attempts(events)
    decreases |events|
  {
    if events != [] {
      AscendStep(s, events[0]);
      IdsAscend(Next(s, events[0]), events[1..]);
    }
  }

  /** As long as the counter has not wrapped, no two accepted commands share an identifier. */
  lemma IdsDistinct<B, O>(events: seq<Event<B, O>>)
    requires Run(Spawned<B, O>(), events) && Attempts(events) < TWO64
    ensures NoDup(Ids(Final(Spawned<B, O>(), events).submitted))
  {
    IdsAscend(Spawned<B, O>(), events);
  }
}
