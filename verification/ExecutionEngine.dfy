/** The engine object (`execution_engine.rs`), each call and each worker step proved to be a step of the protocol. */
module ExecutionEngine {
  import opened Basics
  import opened ExecutionProtocol

  datatype SubmitError = SubmitToStopped

  datatype PollError = PollOfStopped

  class Engine<B(!new), O(!new)> {
    // the engine's own fields
    var commandTx: bool
    var nextId: nat
    var inFlight: nat
    var joined: bool
    // the two channels
    var commands: seq<Command<B>>
    var completions: seq<Completion<O>>
    // the worker thread and its channel ends
    var worker: Worker<B>
    var receiving: bool
    var reporting: bool
    var shutdowns: nat
    // history
    ghost var submitted: seq<Command<B>>
    ghost var executed: seq<Command<B>>
    ghost var lost: seq<Command<B>>
    ghost var received: seq<Completion<O>>

    ghost function Abstract(): State<B, O>
      reads this
    {
      State(commandTx, nextId, inFlight, joined, commands, completions, worker, receiving, reporting, shutdowns,
            submitted, executed, lost, received)
    }

    ghost predicate Valid()
      reads this
    {
      Inv(Abstract())
    }

    constructor ()
      ensures Valid() && Abstract() == Spawned<B, O>()
    {
      commandTx, nextId, inFlight, joined := true, 0, 0, false;
      commands, completions := [], [];
      worker, receiving, reporting, shutdowns := Idle, true, true, 0;
      submitted, executed, lost, received := [], [], [], [];
    }

    /** Accepted exactly while the worker holds its receiver; a refused command still uses up an identifier. */
    method Submit(batch: B) returns (r: Result<nat, SubmitError>)
      requires Valid() && commandTx
      modifies this
      ensures Valid() && Abstract() == Next(old(Abstract()), Event.Submit(batch))
      ensures r == if old(receiving) then Ok(old(nextId)) else Err(SubmitToStopped)
      ensures inFlight == old(inFlight) + (if r.Ok? then 1 else 0)
    {
      StepInv(Abstract(), Event.Submit(batch));
      var id := nextId;
      nextId := (nextId + 1) % TWO64;
      if !(commandTx && receiving) {
        return Err(SubmitToStopped);
      }
      commands := commands + [Command(id, batch)];
      submitted := submitted + [Command(id, batch)];
      inFlight := inFlight + 1;
      return Ok(id);
    }

    /** Takes the oldest completion off the channel; the subtraction is exact. */
    method TakeCompletion() returns (c: Completion<O>)
      requires Valid() && commandTx && completions != []
      modifies this
      ensures Valid() && Abstract() == AfterPoll(old(Abstract()))
      ensures c == old(completions)[0] && inFlight == old(inFlight) - 1
      ensures c.id == old(submitted)[|old(received)|].id
    {
      PollInv(Abstract());
      assert (received + completions)[|received|] == completions[0];
      c := completions[0];
      completions := completions[1..];
      received := received + [c];
      inFlight := SaturatingSub(inFlight, 1);
    }

    /** A buffered completion is delivered even after the worker is gone; the error means nothing is left. */
    method TryRecv() returns (r: Result<Option<Completion<O>>, PollError>)
      requires Valid() && commandTx
      modifies this
      ensures Valid() && Abstract() == Next(old(Abstract()), Event.TryRecv)
      ensures r.Err? <==> old(completions) == [] && !old(reporting)
      ensures r.Ok? && r.value.None? <==> old(completions) == [] && old(reporting)
      ensures r.Ok? && r.value.Some? ==>
                r.value.value == old(completions)[0] && r.value.value.id == old(submitted)[|old(received)|].id
    {
      if completions != [] {
        var c := TakeCompletion();
        return Ok(Some(c));
      }
      return if reporting then Ok(None) else Err(PollOfStopped);
    }

    /** Blocks until it can answer, which is its precondition here. */
    method Recv() returns (r: Result<Completion<O>, PollError>)
      requires Valid() && Enabled(Abstract(), Event<B, O>.Recv)
      modifies this
      ensures Valid() && Abstract() == Next(old(Abstract()), Event.Recv)
      ensures r.Ok? <==> old(completions) != []
      ensures r.Ok? ==> r.value == old(completions)[0] && r.value.id == old(submitted)[|old(received)|].id
    {
      if completions != [] {
        var c := TakeCompletion();
        return Ok(c);
      }
      return Err(PollOfStopped);
    }

    /** The waiting worker takes the next command, or finds the channel closed and shuts down. */
    method Wait() returns (e: Event<B, O>)
      requires Valid() && worker.Idle? && (commands != [] || !commandTx)
      modifies this
      ensures Enabled(old(Abstract()), e) && WorkerEvent(e) && !e.Stop? && Valid()
              && Abstract() == Next(old(Abstract()), e)
    {
      e := if commands != [] then Event.Take else Event.Disconnect;
      StepInv(Abstract(), e);
      if commands != [] {
        worker, commands := Busy(commands[0]), commands[1..];
      } else {
        worker, shutdowns := Finished, shutdowns + 1;
      }
    }

    /** The busy worker reports an outcome, or stops without one when `execute` panics. */
    method Execute(execute: Command<B> -> Option<O>) returns (e: Event<B, O>)
      requires Valid() && worker.Busy?
      modifies this
      ensures Enabled(old(Abstract()), e) && WorkerEvent(e) && Valid() && Abstract() == Next(old(Abstract()), e)
      ensures e == match execute(old(worker).command)
                   case Some(outcome) => Event.Complete(outcome)
                   case None => Event.Stop
    {
      var command := worker.command;
      var outcome := execute(command);
      e := match outcome case Some(o) => Event.Complete(o) case None => Event.Stop;
      StepInv(Abstract(), e);
      if outcome.Some? {
        completions := completions + [Completion(command.id, outcome.value)];
        executed := executed + [command];
        worker := Idle;
      } else {
        lost := lost + [command];
        worker := Stopped;
      }
    }

    /** A thread that is past its loop drops its channel ends, in either order. */
    method Unwind(receiverFirst: bool) returns (e: Event<B, O>)
      requires Valid() && (worker.Stopped? || worker.Finished?) && (receiving || reporting)
      modifies this
      ensures Enabled(old(Abstract()), e) && WorkerEvent(e) && !e.Stop? && Valid()
              && Abstract() == Next(old(Abstract()), e)
    {
      e := if receiving && (receiverFirst || !reporting) then Event.DropReceiver else Event.DropReporter;
      StepInv(Abstract(), e);
      if receiving && (receiverFirst || !reporting) {
        lost := lost + commands;
        receiving, commands := false, [];
      } else {
        reporting := false;
      }
    }

    /** One step of the worker thread. */
    method WorkerStep(execute: Command<B> -> Option<O>, receiverFirst: bool) returns (e: Event<B, O>)
      requires Valid() && (worker.Idle? ==> commands != [] || !commandTx)
               && (Ended(Abstract()) ==> receiving || reporting)
      modifies this
      ensures Enabled(old(Abstract()), e) && WorkerEvent(e) && Valid() && Abstract() == Next(old(Abstract()), e)
      ensures e.Stop? ==> old(worker).Busy? && execute(old(worker).command).None?
    {
      match worker {
        case Idle => e := Wait();
        case Busy(_) => e := Execute(execute);
        case _ => e := Unwind(receiverFirst);
      }
    }

    /**
     * Dropping the engine closes the command channel and joins the worker. It terminates whatever the worker does, and
     * unless the worker stops, every accepted command is executed before the single shutdown.
     */
    method Drop(execute: Command<B> -> Option<O>)
      requires Valid() && commandTx && !joined
      modifies this
      ensures Valid() && joined && submitted == old(submitted) && received == old(received)
      ensures !old(worker).Stopped? && (forall c :: execute(c).Some?) ==> executed == submitted && shutdowns == 1
    {
      commandTx := false;
      assert Abstract() == Next(old(Abstract()), Event.CloseSender);
      while worker.Idle? || worker.Busy? || receiving || reporting
        invariant Valid() && !commandTx && !joined && submitted == old(submitted) && received == old(received)
        invariant !old(worker).Stopped? && (forall c :: execute(c).Some?) ==> !worker.Stopped?
        decreases Remaining(Abstract())
      {
        var receiverFirst: bool := *;
        ghost var before := Abstract();
        var e := WorkerStep(execute, receiverFirst);
        StepShrinks(before, e);
      }
      ghost var last := Abstract();
      joined := true;
      assert Abstract() == Next(last, Event.Join);
    }
  }

  lemma StepShrinks<B, O>(s: State<B, O>, e: Event<B, O>)
    requires Inv(s) && !s.sending && !s.joined && Enabled(s, e)
    ensures Remaining(Next(s, e)) < Remaining(s)
  {
  }
}
