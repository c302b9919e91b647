/** One message from read to disposition (internal/mq/consumer.go). */
module Consumer {
  import opened Wrappers
  import opened Errors
  import opened Events
  import opened Delivery
  import opened Environment
  import opened Processor
  import Script
  import Backoff

  datatype Message = Message(readCount: nat, command: Command)

  lemma FinishedDelivery(world: World)
    requires world.Valid()
    ensures After(world.service, world.readCount, world.command, world.effects) == Some(world.phase)
    ensures MonotoneSamples(world.effects)
    ensures Script.After(world.Limit(), Opening(Start(world.service, world.command)), world.log) == Some(world.place)
  {
  }

  lemma StartOfMessage(service: Service, command: Command)
    ensures !ContractValid(service.config, command) ==> Start(service, command) == Rejecting
  {
  }

  lemma LastDisposes(service: Service, readCount: nat, command: Command, effects: seq<Effect>)
    requires After(service, readCount, command, effects) == Some(Finished)
    ensures effects != [] && Disposes(effects[|effects| - 1])
  {
    StartIsEarly(service, command);
    hide Start, MayPublish, Backoff.Delay;
    if effects != [] {
      var phase := PhaseOf(service, readCount, command, effects, |effects| - 1);
      assert effects[..|effects| - 1 + 1] == effects;
    }
  }

  lemma FinishedDisposed(service: Service, readCount: nat, command: Command, effects: seq<Effect>)
    requires After(service, readCount, command, effects) == Some(Finished) && MonotoneSamples(effects)
    ensures DisposedExactly(service, readCount, command, effects)
  {
    LastDisposes(service, readCount, command, effects);
    hide After, MonotoneSamples, DisposedExactly;
    DispositionExactly(service, readCount, command, effects, |effects| - 1);
  }

  /**
   For an accepted job of which no call failed and whose source is within the limit,
   the one result is a completion; if a call did fail, it is a failure.
   */
  ghost predicate Concludes(service: Service, command: Command, effects: seq<Effect>, log: seq<Script.Entry>) {
    exists n :: 0 <= n < |effects| && effects[n].Enqueue?
             && (effects[n].outcome.Completed? <==>
                   Start(service, command).Working? && Script.Faultless(service.tools.MaxInputBytes(), log))
  }

  lemma OneResult(service: Service, command: Command, effects: seq<Effect>, log: seq<Script.Entry>)
    requires Accounted(service, command, effects, log) && CountEnqueues(effects) == 1
    ensures Concludes(service, command, effects, log)
  {
    hide Start, Script.Faultless, Script.ExplainedBy;
    var n := SomeEnqueue(effects);
  }

  lemma {:induction false} SomeEnqueue(effects: seq<Effect>) returns (n: nat)
    requires CountEnqueues(effects) >= 1
    ensures n < |effects| && effects[n].Enqueue?
  {
    n := |effects| - 1;
    if !effects[n].Enqueue? {
      n := SomeEnqueue(effects[..|effects| - 1]);
    }
  }

  class Consumer {
    const config: Config
    const world: World
    const handler: Processor

    constructor (config: Config, handler: Processor)
      requires handler.Valid() && config == handler.world.service.config
      ensures Valid() && this.handler == handler && this.world == handler.world && this.config == config
    {
      this.config, this.handler, this.world := config, handler, handler.world;
    }

    ghost predicate Valid() {
      handler.Valid() && world == handler.world && config == world.service.config
    }

    /**
     Handles one message. Its effects are those of one complete delivery: at most
     one result, cancellation sampled monotonically, and the one disposition that the
     effects call for. The result is the one that the answers of the calls account for,
     and the calls are those of the script up to its end.
     */
    method Process(message: Message)
      requires Valid() && message.readCount == world.readCount && message.command == world.command
      requires world.Valid() && world.phase == Start(world.service, world.command)
      requires world.effects == [] && world.log == [] && world.place == Opening(world.phase)
      modifies world
      ensures After(world.service, world.readCount, world.command, world.effects) == Some(Finished)
      ensures CountDispositions(world.effects) == 1
      ensures CountEnqueues(world.effects) == if JobOf(world.service, world.command).Some? then 1 else 0
      ensures MonotoneSamples(world.effects)
      ensures DisposedExactly(world.service, world.readCount, world.command, world.effects)
      ensures Accounted(world.service, world.command, world.effects, world.log)
      ensures JobOf(world.service, world.command).Some? ==> Concludes(world.service, world.command, world.effects, world.log)
      ensures ProgressAgrees(world.effects, Script.Reports(world.log))
      ensures Script.After(world.Limit(), Opening(Start(world.service, world.command)), world.log) == Some(world.place)
      ensures Script.Concluded(world.place)
      ensures Start(world.service, world.command).Working? ==> Script.CleanedUp(world.log)
    {
      hide World.Valid, ProgressAgrees, Accounted, DisposedExactly, Start, JobOf, Concludes, Script.Reports,
        Script.CleanedUp;
      StartOfMessage(world.service, world.command);
      var command := message.command;
      if command.contractError != "" || command.messageType != config.messageType || command.payload.None? {
        DeadLetter();
      } else {
        var error := handler.HandleMeshJob(command.payload.value);
        Dispose(message.readCount, error);
      }
      Accounts(world);
      FinishedDelivery(world);
      FinishedDisposed(world.service, world.readCount, world.command, world.effects);
      OneResultOneDisposition(world.service, world.readCount, world.command, world.effects);
      if CountEnqueues(world.effects) == 1 {
        OneResult(world.service, world.command, world.effects, world.log);
      }
    }

    /** What follows the handler's return. */
    method Dispose(readCount: nat, error: Option<Error>)
      requires Valid() && readCount == world.readCount
      requires world.Valid() && world.phase == Returned(VerdictOf(error))
      modifies world
      ensures unchanged(world`place, world`log)
      ensures world.Valid() && world.phase == Finished
      ensures DisposedExactly(world.service, world.readCount, world.command, world.effects)
    {
      assert IsTerminalResult(error) ==> error.Some?;
      hide World.Valid, DisposedExactly, IsTerminalResult, IsRetryable;
      var cancelled: bool;
      if IsTerminalResult(error) {
        cancelled := world.ParentCancelled();
        if !cancelled {
          Complete();
          return;
        }
      }
      if error.None? {
        cancelled := world.ParentCancelled();
        if !cancelled {
          Complete();
          return;
        }
      }
      cancelled := world.ParentCancelled();
      if cancelled {
        Retry(0);
        return;
      }
      if IsRetryable(error) && readCount <= config.retryLimit {
        Retry(Backoff.Delay(readCount));
        return;
      }
      DeadLetter();
    }

    method Complete()
      requires Valid() && world.Valid() && world.phase.Completing?
      modifies world
      ensures unchanged(world`place, world`log)
      ensures world.Valid() && world.phase == Finished
      ensures world.Added() && world.LastEffect().Delete?
      ensures DisposedExactly(world.service, world.readCount, world.command, world.effects)
    {
      hide World.Valid, DisposedExactly;
      var error := world.Complete();
      FinishedDelivery(world);
      FinishedDisposed(world.service, world.readCount, world.command, world.effects);
    }

    method Retry(delay: int)
      requires Valid() && world.Valid()
      requires MayRetry(config, world.readCount, world.phase, delay)
      modifies world
      ensures unchanged(world`place, world`log)
      ensures world.Valid() && world.phase == Finished
      ensures world.Added() && world.LastEffect().SetVisibility? && world.LastEffect().delay == delay
      ensures DisposedExactly(world.service, world.readCount, world.command, world.effects)
    {
      hide World.Valid, DisposedExactly;
      var error := world.Retry(delay);
      FinishedDelivery(world);
      FinishedDisposed(world.service, world.readCount, world.command, world.effects);
    }

    method DeadLetter()
      requires Valid() && world.Valid()
      requires MayArchive(config, world.readCount, world.phase)
      modifies world
      ensures unchanged(world`place, world`log)
      ensures world.Valid() && world.phase == Finished
      ensures world.Added() && world.LastEffect().Archive?
      ensures DisposedExactly(world.service, world.readCount, world.command, world.effects)
    {
      hide World.Valid, DisposedExactly;
      var error := world.DeadLetter();
      FinishedDelivery(world);
      FinishedDisposed(world.service, world.readCount, world.command, world.effects);
    }
  }
}
