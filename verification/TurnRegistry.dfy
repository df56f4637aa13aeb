/** The in-process event registry: per turn a bounded replay log, the text so far,
    the last sequence number and the terminal event, if any. */
module TurnRegistry {
  import opened Prelude
  import opened RuntimeContract

  /** The last n elements. */
  function LastOf(s: seq<RuntimeEvent>, n: nat): seq<RuntimeEvent> {
    if |s| <= n then s else s[|s| - n..]
  }

  /** A bounded deque of the last n, given one more element, holds the last n again. */
  lemma LastOfAppend(s: seq<RuntimeEvent>, x: RuntimeEvent, n: nat)
    ensures LastOf(LastOf(s, n) + [x], n) == LastOf(s + [x], n)
  {
    if |s| > n {
      assert LastOf(s, n) + [x] == (s + [x])[|s| - n..];
    }
  }

  function LastPhase(events: seq<RuntimeEvent>): Option<Phase>
    decreases |events|
  {
    if events == [] then None
    else if events[|events| - 1].phase.Some? then events[|events| - 1].phase
    else LastPhase(events[..|events| - 1])
  }

  function TerminalOf(events: seq<RuntimeEvent>): Option<EventType> {
    if events != [] && IsTerminal(events[|events| - 1].kind) then Some(events[|events| - 1].kind) else None
  }

  /** Numbered from 1, and nothing after a terminal event. */
  ghost predicate WellOrdered(events: seq<RuntimeEvent>) {
    && (forall i :: 0 <= i < |events| ==> events[i].sequence == i + 1)
    && (forall i :: 0 <= i < |events| - 1 ==> !IsTerminal(events[i].kind))
  }

  lemma WellOrderedAppend(history: seq<RuntimeEvent>, e: RuntimeEvent)
    requires WellOrdered(history) && TerminalOf(history).None? && e.sequence == |history| + 1
    ensures WellOrdered(history + [e])
    ensures TerminalOf(history + [e]) == (if IsTerminal(e.kind) then Some(e.kind) else None)
  {
    var more := history + [e];
    assert forall i :: 0 <= i < |history| ==> more[i] == history[i];
  }

  lemma LastPhaseAppend(history: seq<RuntimeEvent>, e: RuntimeEvent)
    ensures LastPhase(history + [e]) == (if e.phase.Some? then e.phase else LastPhase(history))
  {
    assert (history + [e])[..|history|] == history;
  }

  lemma DeltaAppend(history: seq<RuntimeEvent>, e: RuntimeEvent)
    ensures EventText(history + [e]) == (if e.delta.Some? then EventText(history) + e.delta.value else EventText(history))
  {
    EventTextAppend(history, e);
    hide EventText;
    assert EventText(history) + "" == EventText(history);
  }

  /** Everything a turn holds is determined by what was published on it. */
  ghost predicate Summarizes(
    history: seq<RuntimeEvent>, limit: nat,
    events: seq<RuntimeEvent>, phase: Option<Phase>, text: string, sequence: int, terminal: Option<EventType>)
  {
    && WellOrdered(history) && events == LastOf(history, limit) && sequence == |history|
    && text == EventText(history) && phase == LastPhase(history) && terminal == TerminalOf(history)
  }

  lemma SummaryAppend(
    history: seq<RuntimeEvent>, limit: nat, e: RuntimeEvent,
    events: seq<RuntimeEvent>, phase: Option<Phase>, text: string, sequence: int, terminal: Option<EventType>)
    requires Summarizes(history, limit, events, phase, text, sequence, terminal)
    requires terminal.None? && e.sequence == sequence + 1
    ensures Summarizes(history + [e], limit, LastOf(events + [e], limit),
      if e.phase.Some? then e.phase else phase,
      if e.delta.Some? then text + e.delta.value else text,
      e.sequence, if IsTerminal(e.kind) then Some(e.kind) else None)
  {
    hide EventText, LastOf, LastPhase, WellOrdered, TerminalOf;
    WellOrderedAppend(history, e);
    LastPhaseAppend(history, e);
    DeltaAppend(history, e);
    LastOfAppend(history, e, limit);
  }

  /** The log holds the latest events, as many as it may. */
  lemma LogHolds(
    history: seq<RuntimeEvent>, limit: nat,
    events: seq<RuntimeEvent>, phase: Option<Phase>, text: string, sequence: int, terminal: Option<EventType>)
    requires Summarizes(history, limit, events, phase, text, sequence, terminal)
    ensures |events| == (if |history| < limit then |history| else limit)
    ensures forall i :: 0 <= i < |events| ==> events[i] == history[|history| - |events| + i]
    ensures forall i :: 0 <= i < |events| ==> events[i].sequence == sequence - |events| + i + 1
  {
    hide EventText, LastPhase;
  }

  class ActiveTurn {
    const limit: nat
    var events: seq<RuntimeEvent>
    var phase: Option<Phase>
    var text: string
    var sequence: int
    var terminal: Option<EventType>
    ghost var history: seq<RuntimeEvent>

    ghost predicate Valid()
      reads this
    {
      Summarizes(history, limit, events, phase, text, sequence, terminal)
    }

    constructor (limit: nat)
      ensures Valid() && history == [] && this.limit == limit && terminal.None? && sequence == 0 && text == ""
    {
      this.limit := limit;
      events, phase, text, sequence, terminal, history := [], None, "", 0, None, [];
    }

    /** `_validate` */
    predicate Accepts(event: RuntimeEvent)
      reads this
    {
      terminal.None? && event.sequence == sequence + 1
    }

    method Publish(event: RuntimeEvent) returns (published: bool)
      requires Valid()
      modifies this
      ensures Valid()
      ensures published == old(Accepts(event))
      ensures history == if published then old(history) + [event] else old(history)
    {
      hide Summarizes, LastOf;
      if !Accepts(event) {
        return false;
      }
      SummaryAppend(history, limit, event, events, phase, text, sequence, terminal);
      history := history + [event];
      sequence := event.sequence;
      if event.phase.Some? {
        phase := event.phase;
      }
      if event.delta.Some? {
        text := text + event.delta.value;
      }
      if IsTerminal(event.kind) {
        terminal := Some(event.kind);
      }
      events := LastOf(events + [event], limit);
      return true;
    }
  }

  class ActiveTurnRegistry {
    const replayLimit: nat
    const turnLimit: nat
    var order: seq<TurnId>
    var turns: map<TurnId, ActiveTurn>

    ghost predicate Valid()
      reads this
    {
      && (forall id :: id in order <==> id in turns)
      && (forall i, j :: 0 <= i < j < |order| ==> order[i] != order[j])
    }

    constructor (replayLimit: nat, turnLimit: nat)
      ensures Valid() && turns == map[]
    {
      this.replayLimit, this.turnLimit := replayLimit, turnLimit;
      order, turns := [], map[];
    }

    /** Room is made by dropping the oldest turns, but never one that has not ended. */
    method Register(turnId: TurnId) returns (registered: bool)
      requires Valid()
      modifies this
      ensures Valid()
      ensures registered <==> turnId !in old(turns)
      ensures !registered ==> turns == old(turns)
      ensures registered ==>
        && turnId in turns && fresh(turns[turnId]) && turns[turnId].Valid()
        && turns[turnId].history == [] && turns[turnId].terminal.None?
      ensures forall id :: id in old(turns) && id !in turns ==> old(turns[id].terminal).Some?
      ensures forall id :: id in turns && id != turnId ==> id in old(turns) && turns[id] == old(turns)[id]
      ensures |order| <= turnLimit || turns[order[0]].terminal.None?
        || (!registered && order == old(order))
    {
      if turnId in turns {
        return false;
      }
      var turn := new ActiveTurn(replayLimit);
      order, turns := order + [turnId], turns[turnId := turn];
      while |order| > turnLimit
        invariant Valid() && turnId in turns && turns[turnId] == turn && turn.Valid()
        invariant turn.history == [] && turn.terminal.None?
        invariant forall id :: id in old(turns) && id !in turns ==> old(turns[id].terminal).Some?
        invariant forall id :: id in turns && id != turnId ==> id in old(turns) && turns[id] == old(turns)[id]
        decreases |order|
      {
        var oldest := order[0];
        if turns[oldest].terminal.None? {
          break;
        }
        assert oldest in turns && oldest != turnId;
        order, turns := order[1..], turns - {oldest};
      }
      return true;
    }
  }
}
