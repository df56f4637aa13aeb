/** The coordinator: it owns a turn from its creation to its durable end, and writes
    the store before it publishes. */
module TurnCoordination {
  import opened Prelude
  import opened RuntimeContract
  import opened TurnRegistry
  import opened JarvisState

  /** Where a shutdown catches a consumer: only between its steps. */
  datatype Shutdown = Never | BeforeEvent(index: nat) | BeforePublish(index: nat)

  /** What storing one event leads to: an event to publish, or an exception. */
  datatype Written = Publish(event: RuntimeEvent) | Raised

  datatype StartError = ShuttingDown | Refused(error: StoreError) | HistoryUnreadable

  /** The durable status and the published end say the same. */
  predicate Agree(status: Status, terminal: Option<EventType>) {
    match status
    case Running => terminal.None?
    case Completed => terminal == Some(TurnCompleted)
    case Failed => terminal == Some(TurnFailed)
    case Cancelled => terminal == Some(TurnCancelled)
    case Interrupted => false
  }

  /** The status a terminal event stands for. */
  function StatusOf(kind: EventType): Status
    requires IsTerminal(kind)
  {
    match kind
    case TurnCompleted => Completed
    case TurnFailed => Failed
    case TurnCancelled => Cancelled
  }

  /** The message some completion among the events commits: all text before it. */
  ghost predicate CommittedFrom(message: Message, events: seq<RuntimeEvent>) {
    exists k :: 0 <= k < |events| && CommitsAt(message, events, k)
  }

  ghost predicate CommitsAt(message: Message, events: seq<RuntimeEvent>, k: nat)
    requires k < |events|
  {
    events[k].kind.TurnCompleted? && message.role.Assistant?
    && message.body == EventText(events[..k]) && message.refs == Unique(events[k].refs)
  }

  /** A failure whose error code, if it carries one, the store takes. */
  predicate StorableEnd(event: RuntimeEvent) {
    event.kind.TurnFailed? && event.errorCode.Some? ==> StorableCode(event.errorCode.value)
  }

  /** The code a failure is stored under. */
  function DurableCode(event: RuntimeEvent): ErrorCode {
    if !StorableEnd(event) then RuntimeStreamFailed
    else if event.errorCode.Some? then event.errorCode.value
    else RuntimeFailed
  }

  /** What is published of a complete run: all of it, or with the end replaced if the
      store refuses its code. */
  function PublishedRun(events: seq<RuntimeEvent>, turnId: TurnId): seq<RuntimeEvent>
    requires events != []
  {
    if StorableEnd(events[|events| - 1]) then events
    else events[..|events| - 1] + [FailedEvent(turnId, |events|, RuntimeStreamFailed)]
  }

  ghost predicate OthersKept(before: map<TurnId, Turn>, after: map<TurnId, Turn>, turnId: TurnId) {
    before.Keys == after.Keys && forall t :: t in before && t != turnId ==> after[t] == before[t]
  }

  /** Nothing changed but some owned turns, which are now interrupted. */
  ghost predicate Interruptions(before: map<TurnId, Turn>, after: map<TurnId, Turn>, owned: seq<TurnId>) {
    before.Keys == after.Keys
    && forall t :: t in before ==> after[t] == before[t] || (t in owned && after[t].status.Interrupted?)
  }

  class TurnCoordinator {
    const state: JarvisStateStore
    const registry: ActiveTurnRegistry
    var tasks: seq<TurnId>
    var shuttingDown: bool

    /** Turns are registered once, under fresh identifiers; consumers own stored turns. */
    ghost predicate Valid()
      reads this, state, registry
    {
      && state.Valid() && registry.Valid()
      && (forall id :: id in registry.turns ==> id < state.nextTurn)
      && (forall i :: 0 <= i < |tasks| ==> tasks[i] in state.turns)
    }

    constructor (state: JarvisStateStore, registry: ActiveTurnRegistry)
      requires state.Valid() && registry.Valid() && registry.turns == map[]
      ensures Valid() && this.state == state && this.registry == registry && tasks == [] && !shuttingDown
    {
      this.state, this.registry, tasks, shuttingDown := state, registry, [], false;
    }

    /** The runtime did not start: the turn ends failed, durably and then publicly. */
    method FailStart(id: TurnId, active: ActiveTurn) returns (failed: Option<StoreError>)
      requires state.Valid() && active.Valid() && active.history == []
      requires id in state.turns && state.turns[id].status.Running?
      modifies state, active
      ensures state.Valid() && active.Valid() && state.Kept() && state.nextTurn == old(state.nextTurn)
      ensures state.messages == old(state.messages) && (state.reliable ==> failed.None?)
      ensures failed.Some? ==> state.turns == old(state.turns) && active.history == []
      ensures failed.None? ==>
        && state.turns == old(state.turns)[id := old(state.turns)[id].(status := Failed, errorCode := Some(RuntimeStartFailed))]
        && active.history == [FailedEvent(id, 1, RuntimeStartFailed)] && active.terminal == Some(TurnFailed)
    {
      hide JarvisStateStore.Valid, EventText, LastOf, LastPhase;
      failed := state.FinishWithoutMessage(id, Failed, Some(RuntimeStartFailed));
      if failed.None? {
        LastIsTerminal([], FailedEvent(id, 1, RuntimeStartFailed));
        assert [] + [FailedEvent(id, 1, RuntimeStartFailed)] == [FailedEvent(id, 1, RuntimeStartFailed)];
        var published := active.Publish(FailedEvent(id, 1, RuntimeStartFailed));
      }
    }

    /** `start`: create, read the history, register, start the runtime; a runtime that fails to
        start ends the turn. If the history cannot be read, the turn is left running with no
        owner, until the next process interrupts it. */
    method Start(conversation: ConversationId, body: string, runtimeStarts: bool)
      returns (started: Result<TurnId, StartError>)
      requires Valid()
      modifies this, state, registry
      ensures Valid() && state.Kept()
      ensures old(shuttingDown) ==> started == Err(ShuttingDown) && state.turns == old(state.turns)
      ensures started == Err(HistoryUnreadable) ==>
        && registry.turns == old(registry.turns) && tasks == old(tasks) && old(state.nextTurn) in state.turns
        && state.turns == old(state.turns)[old(state.nextTurn) := state.turns[old(state.nextTurn)]]
        && state.turns[old(state.nextTurn)].status.Running?
      ensures started.Ok? ==>
        && started.value !in old(state.turns) && started.value in state.turns && started.value in registry.turns
        && registry.turns[started.value].Valid() && state.turns[started.value].conversation == conversation
        && Agree(state.turns[started.value].status, registry.turns[started.value].terminal)
      ensures started.Ok? && runtimeStarts ==>
        && started.value in tasks && state.turns[started.value].status.Running?
        && registry.turns[started.value].history == []
      ensures started.Ok? && !runtimeStarts ==>
        && state.turns[started.value].errorCode == Some(RuntimeStartFailed)
        && registry.turns[started.value].history == [FailedEvent(started.value, 1, RuntimeStartFailed)]
      ensures state.reliable && started.Err? ==> state.turns == old(state.turns) && state.messages == old(state.messages)
      ensures forall id :: id in old(registry.turns) && id !in registry.turns ==> old(registry.turns[id].terminal).Some?
    {
      hide JarvisStateStore.Valid, ActiveTurn.Valid, TerminalOf;
      if shuttingDown {
        return Err(ShuttingDown);
      }
      var created := state.CreateTurn(conversation, body);
      if created.Err? {
        return Err(Refused(created.error));
      }
      var id := created.value;
      var fails: bool := *;
      if fails && !state.reliable {
        return Err(HistoryUnreadable);
      }
      var registered := registry.Register(id);
      var active := registry.turns[id];
      if !runtimeStarts {
        var failed := FailStart(id, active);
        return if failed.Some? then Err(Refused(failed.value)) else Ok(id);
      }
      tasks := tasks + [id];
      return Ok(id);
    }

    /** A completion: commit the text so far, or end the turn failed. */
    method Commit(turnId: TurnId, text: string, event: RuntimeEvent) returns (written: Written)
      requires state.Valid() && turnId in state.turns && state.turns[turnId].status.Running? && event.kind.TurnCompleted?
      modifies state
      ensures state.Valid() && state.Kept() && OthersKept(old(state.turns), state.turns, turnId)
      ensures written.Raised? ==> state.turns == old(state.turns) && state.messages == old(state.messages)
      ensures written.Publish? && written.event == event ==>
        && state.turns[turnId].status.Completed?
        && state.turns[turnId].assistantMessage == Some(|old(state.messages)|)
        && state.messages == old(state.messages)
          + [Message(state.turns[turnId].conversation, Assistant, text, Unique(event.refs))]
      ensures written.Publish? && written.event != event ==>
        && written.event == FailedEvent(turnId, event.sequence, StateCommitFailed)
        && state.turns[turnId].status.Failed? && state.messages == old(state.messages)
      ensures state.reliable && event.Valid() ==> written == Publish(event)
    {
      assert event.Valid() ==> |Unique(event.refs)| <= MAX_PRESENTED by {
        if event.Valid() {
          UniqueOfDistinct(event.refs);
        }
      }
      hide Unique, JarvisStateStore.Valid;
      var failed := state.CompleteTurn(turnId, text, event.refs);
      if failed.None? {
        return Publish(event);
      }
      var unfinished := state.FinishWithoutMessage(turnId, Failed, Some(StateCommitFailed));
      if unfinished.Some? {
        return Raised;
      }
      return Publish(FailedEvent(turnId, event.sequence, StateCommitFailed));
    }

    /** The store's part of one event: what is written, and what is to be published. */
    method Write(turnId: TurnId, active: ActiveTurn, event: RuntimeEvent) returns (written: Written)
      requires state.Valid() && turnId in state.turns && Agree(state.turns[turnId].status, active.terminal)
      modifies state
      ensures state.Valid() && state.Kept() && OthersKept(old(state.turns), state.turns, turnId)
      ensures written.Raised? ==> state.turns == old(state.turns) && state.messages == old(state.messages)
      ensures written.Publish? ==>
        && active.Accepts(written.event)
        && Agree(state.turns[turnId].status, if IsTerminal(written.event.kind) then Some(written.event.kind) else None)
        && (written.event == event
            || (event.kind.TurnCompleted? && written.event == FailedEvent(turnId, event.sequence, StateCommitFailed)))
      ensures written.Publish? && written.event.kind.TurnCompleted? ==>
        && state.turns[turnId].assistantMessage == Some(|old(state.messages)|)
        && state.messages == old(state.messages)
          + [Message(state.turns[turnId].conversation, Assistant, active.text, Unique(event.refs))]
      ensures !(written.Publish? && written.event.kind.TurnCompleted?) ==> state.messages == old(state.messages)
      ensures written.Publish? && event.kind.TurnFailed? ==> state.turns[turnId].errorCode == Some(DurableCode(event))
      ensures state.reliable && active.Accepts(event) && event.Valid() ==>
        written == if StorableEnd(event) then Publish(event) else Raised
    {
      hide RuntimeEvent.Valid, JarvisStateStore.Valid, StorableCode;
      if !active.Accepts(event) {
        return Raised;
      }
      if event.kind.TurnCompleted? {
        written := Commit(turnId, active.text, event);
      } else if event.kind.TurnFailed? || event.kind.TurnCancelled? {
        var code :=
          if event.kind.TurnCancelled? then None
          else if event.errorCode.Some? then event.errorCode
          else Some(RuntimeFailed);
        FixedCodesStorable();
        var failed := state.FinishWithoutMessage(turnId, StatusOf(event.kind), code);
        written := if failed.Some? then Raised else Publish(event);
      } else {
        written := Publish(event);
      }
    }

    /** The handler of anything raised while consuming. */
    method FailStream(turnId: TurnId, active: ActiveTurn)
      requires state.Valid() && active.Valid() && turnId in state.turns
      requires Agree(state.turns[turnId].status, active.terminal)
      modifies state, active
      ensures state.Valid() && active.Valid() && state.Kept() && OthersKept(old(state.turns), state.turns, turnId)
      ensures Agree(state.turns[turnId].status, active.terminal) && state.messages == old(state.messages)
      ensures !old(state.turns)[turnId].status.Running? ==>
        state.turns == old(state.turns) && active.history == old(active.history)
      ensures old(state.turns)[turnId].status.Running? ==>
        state.turns[turnId].status.Failed? || (state.turns == old(state.turns) && active.history == old(active.history))
      ensures state.reliable ==> !state.turns[turnId].status.Running?
      ensures state.reliable && old(state.turns)[turnId].status.Running? ==>
        && state.turns[turnId].errorCode == Some(RuntimeStreamFailed)
        && active.history == old(active.history)
          + [FailedEvent(turnId, |old(active.history)| + 1, RuntimeStreamFailed)]
    {
      hide EventText, LastOf, LastPhase, WellOrdered;
      FixedCodesStorable();
      if state.turns[turnId].status.Running? {
        var failed := state.FinishWithoutMessage(turnId, Failed, Some(RuntimeStreamFailed));
        if failed.None? {
          LastIsTerminal(active.history, FailedEvent(turnId, active.sequence + 1, RuntimeStreamFailed));
          var published := active.Publish(FailedEvent(turnId, active.sequence + 1, RuntimeStreamFailed));
        }
      }
    }

    /** A shutdown finding this turn: interrupt it unless it has ended. */
    method Interrupt(turnId: TurnId) returns (failed: bool)
      requires state.Valid() && turnId in state.turns
      modifies state
      ensures state.Valid() && state.Kept() && OthersKept(old(state.turns), state.turns, turnId)
      ensures state.messages == old(state.messages) && state.nextTurn == old(state.nextTurn)
      ensures !old(state.turns)[turnId].status.Running? ==> state.turns == old(state.turns)
      ensures old(state.turns)[turnId].status.Running? ==>
        if failed then state.turns == old(state.turns) else state.turns[turnId].status.Interrupted?
      ensures state.reliable ==> !failed
    {
      var error := state.FinishWithoutMessage(turnId, Interrupted, Some(ProcessRestarted));
      failed := error.Some?;
    }

    /** One round of the loop; false ends it. */
    method Advance(turnId: TurnId, active: ActiveTurn, events: seq<RuntimeEvent>, i: nat, shutdown: Shutdown)
      returns (more: bool)
      requires state.Valid() && active.Valid() && turnId in state.turns && i < |events|
      requires Agree(state.turns[turnId].status, active.terminal) && active.history == events[..i]
      modifies state, active
      ensures state.Valid() && active.Valid() && state.Kept() && OthersKept(old(state.turns), state.turns, turnId)
      ensures more ==> active.history == events[..i + 1]
      ensures Agree(state.turns[turnId].status, active.terminal) || (!shutdown.Never? && active.terminal.None? && !more)
      ensures state.turns[turnId].status.Completed? && old(state.turns)[turnId].status.Running? ==>
        && state.turns[turnId].assistantMessage == Some(|old(state.messages)|)
        && |state.messages| == |old(state.messages)| + 1
        && CommittedFrom(state.messages[|old(state.messages)|], events)
      ensures !(state.turns[turnId].status.Completed? && old(state.turns)[turnId].status.Running?) ==>
        state.messages == old(state.messages)
      ensures state.reliable && shutdown.Never? && old(active.Accepts(events[i])) && events[i].Valid() ==>
        && (more <==> StorableEnd(events[i]))
        && (!more ==> state.turns[turnId].status.Failed?)
        && (!more ==> active.history == events[..i] + [FailedEvent(turnId, i + 1, RuntimeStreamFailed)])
        && (events[i].kind.TurnFailed? ==> state.turns[turnId].errorCode == Some(DurableCode(events[i])))
    {
      hide EventText, LastOf, LastPhase, StorableEnd, JarvisStateStore.Valid, CommittedFrom, RuntimeEvent.Valid;
      var event := events[i];
      if shutdown == BeforeEvent(i) {
        var _ := Interrupt(turnId);
        return false;
      }
      var written := Write(turnId, active, event);
      if written.Raised? {
        FailStream(turnId, active);
        return false;
      }
      if written.event.kind.TurnCompleted? {
        CommitIsCommitted(state.messages[|old(state.messages)|], events, i, active.text);
      }
      if shutdown == BeforePublish(i) {
        var _ := Interrupt(turnId);
        return false;
      }
      LastIsTerminal(active.history, written.event);
      var published := active.Publish(written.event);
      assert events[..i + 1] == events[..i] + [event];
      return written.event == event;
    }

    /** `_consume`: validate, write, publish, for whatever the runtime yields. Without a
        shutdown the durable status and the published end always agree; with one, at
        worst the end is not published. A message is stored exactly by a completion. On a
        reliable store a complete run ends as its last event says, under that event's code if
        the store takes it, and otherwise failed, durably and publicly, under another. */
    method Consume(turnId: TurnId, active: ActiveTurn, events: seq<RuntimeEvent>, shutdown: Shutdown)
      requires state.Valid() && active.Valid() && turnId in state.turns
      requires state.turns[turnId].status.Running? && active.history == []
      modifies state, active
      ensures state.Valid() && active.Valid() && state.Kept() && OthersKept(old(state.turns), state.turns, turnId)
      ensures Agree(state.turns[turnId].status, active.terminal) || (!shutdown.Never? && active.terminal.None?)
      ensures state.turns[turnId].status.Completed? ==>
        && state.turns[turnId].assistantMessage == Some(|old(state.messages)|)
        && |state.messages| == |old(state.messages)| + 1
        && CommittedFrom(state.messages[|old(state.messages)|], events)
      ensures !state.turns[turnId].status.Completed? ==> state.messages == old(state.messages)
      ensures state.reliable && shutdown.Never? && CompleteTurn(events, turnId) ==>
        state.turns[turnId].status == StatusOf(events[|events| - 1].kind)
      ensures state.reliable && shutdown.Never? && CompleteTurn(events, turnId) ==>
        && active.history == PublishedRun(events, turnId)
        && (events[|events| - 1].kind.TurnFailed? ==>
              state.turns[turnId].errorCode == Some(DurableCode(events[|events| - 1])))
    {
      hide EventText, LastOf, LastPhase, StorableCode, JarvisStateStore.Valid, CommittedFrom, RuntimeEvent.Valid;
      for i := 0 to |events|
        invariant state.Valid() && active.Valid() && state.Kept() && OthersKept(old(state.turns), state.turns, turnId)
        invariant active.history == events[..i]
        invariant Agree(state.turns[turnId].status, active.terminal)
        invariant state.turns[turnId].status.Completed? ==>
          && state.turns[turnId].assistantMessage == Some(|old(state.messages)|)
          && |state.messages| == |old(state.messages)| + 1
          && CommittedFrom(state.messages[|old(state.messages)|], events)
        invariant !state.turns[turnId].status.Completed? ==> state.messages == old(state.messages)
        invariant state.reliable && shutdown.Never? && CompleteTurn(events, turnId) && i > 0 ==>
          && StorableEnd(events[i - 1])
          && (events[i - 1].kind.TurnFailed? ==> state.turns[turnId].errorCode == Some(DurableCode(events[i - 1])))
      {
        var more := Advance(turnId, active, events, i, shutdown);
        if !more {
          return;
        }
      }
      assert events[..|events|] == events;
    }

    /** `shutdown`: take every owned turn's end, stopping at the first storage failure.
        A turn that had ended keeps its end, published or not. */
    method Shutdown()
      requires Valid()
      modifies this, state
      ensures Valid() && shuttingDown && state.Kept() && state.messages == old(state.messages)
      ensures Interruptions(old(state.turns), state.turns, old(tasks))
      ensures !old(shuttingDown) && state.reliable ==>
        tasks == [] && forall t :: t in old(tasks) ==> !state.turns[t].status.Running?
    {
      if shuttingDown {
        return;
      }
      shuttingDown := true;
      InterruptAll(tasks);
      tasks := [];
    }

    method InterruptAll(owned: seq<TurnId>)
      requires state.Valid() && forall t :: t in owned ==> t in state.turns
      modifies state
      ensures state.Valid() && state.Kept() && state.messages == old(state.messages)
      ensures state.nextTurn == old(state.nextTurn) && Interruptions(old(state.turns), state.turns, owned)
      ensures state.reliable ==> forall t :: t in owned ==> !state.turns[t].status.Running?
    {
      hide JarvisStateStore.Valid, StorableCode;
      for i := 0 to |owned|
        invariant state.Valid() && state.Kept() && state.messages == old(state.messages)
        invariant state.nextTurn == old(state.nextTurn) && Interruptions(old(state.turns), state.turns, owned)
        invariant state.reliable ==> forall k :: 0 <= k < i ==> !state.turns[owned[k]].status.Running?
      {
        var failed := Interrupt(owned[i]);
        if failed {
          break;
        }
      }
    }
  }

  lemma CommitIsCommitted(message: Message, events: seq<RuntimeEvent>, i: nat, text: string)
    requires i < |events| && events[i].kind.TurnCompleted? && message.role.Assistant?
    requires message.body == text == EventText(events[..i]) && message.refs == Unique(events[i].refs)
    ensures CommittedFrom(message, events)
  {
    assert CommitsAt(message, events, i);
  }

  lemma FixedCodesStorable()
    ensures StorableCode(RuntimeFailed) && StorableCode(RuntimeStreamFailed)
    ensures StorableCode(StateCommitFailed) && StorableCode(ProcessRestarted)
  {
  }

  lemma LastIsTerminal(history: seq<RuntimeEvent>, e: RuntimeEvent)
    ensures TerminalOf(history + [e]) == if IsTerminal(e.kind) then Some(e.kind) else None
  {
  }
}
