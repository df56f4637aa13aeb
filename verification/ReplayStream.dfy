/** Subscribers of a turn's replay log. A publisher and a subscriber take their steps in
    any order; a subscriber that is cut off reconnects with the last number it saw. */
module ReplayStream {
  import opened Prelude
  import opened RuntimeContract
  import opened TurnRegistry

  datatype Phase = Looking | Giving(pending: seq<RuntimeEvent>) | Closed

  /** `cursor` is the last number given; `got` is all that was given, over every connection. */
  datatype World = World(
    limit: nat, history: seq<RuntimeEvent>, cursor: nat, phase: Phase, got: seq<RuntimeEvent>)

  datatype Step = Publish(event: RuntimeEvent) | Look | Give | Check | Reconnect

  /** The logged events with a number beyond the cursor. */
  function After(log: seq<RuntimeEvent>, cursor: nat): seq<RuntimeEvent> {
    if log == [] then []
    else if log[0].sequence > cursor then [log[0]] + After(log[1..], cursor)
    else After(log[1..], cursor)
  }

  /** A look goes through once there is something to give, or the turn has ended. */
  predicate LookEnabled(w: World) {
    w.phase.Looking? && (After(LastOf(w.history, w.limit), w.cursor) != [] || TerminalOf(w.history).Some?)
  }

  /** One step; a step that is not enabled changes nothing. */
  function Next(w: World, step: Step): World {
    match step
    case Publish(e) =>
      if TerminalOf(w.history).None? && e.sequence == |w.history| + 1 then w.(history := w.history + [e]) else w
    case Look =>
      if LookEnabled(w) then w.(phase := Giving(After(LastOf(w.history, w.limit), w.cursor))) else w
    case Give =>
      if w.phase.Giving? && w.phase.pending != [] then
        var e := w.phase.pending[0];
        w.(cursor := if e.sequence >= 0 then e.sequence else 0, got := w.got + [e],
           phase := if IsTerminal(e.kind) then Closed else Giving(w.phase.pending[1..]))
      else w
    case Check =>
      if w.phase == Giving([]) then w.(phase := if TerminalOf(w.history).Some? then Closed else Looking) else w
    case Reconnect => w.(phase := Looking)
  }

  function Play(w: World, steps: seq<Step>): World
    decreases |steps|
  {
    if steps == [] then w else Next(Play(w, steps[..|steps| - 1]), steps[|steps| - 1])
  }

  function Start(limit: nat): World { World(limit, [], 0, Looking, []) }

  /** What a subscriber holds is a stretch of what was published, beyond its cursor. */
  ghost predicate Invariant(w: World) {
    && WellOrdered(w.history) && w.cursor <= |w.history| && GotInOrder(w.history, w.got, w.cursor)
    && (w.phase.Giving? ==> Stretch(w.history, w.cursor, w.phase.pending))
    && (w.phase.Closed? ==> TerminalOf(w.history).Some?)
  }

  /** What was given: published events, ever higher numbers, up to the cursor. */
  ghost predicate GotInOrder(history: seq<RuntimeEvent>, got: seq<RuntimeEvent>, cursor: int) {
    && cursor == (if got == [] then 0 else got[|got| - 1].sequence)
    && (forall i :: 0 <= i < |got| ==> Published(history, got[i]))
    && (forall i, j :: 0 <= i < j < |got| ==> got[i].sequence < got[j].sequence)
  }

  ghost predicate Published(history: seq<RuntimeEvent>, e: RuntimeEvent) {
    1 <= e.sequence <= |history| && history[e.sequence - 1] == e
  }

  ghost predicate Stretch(history: seq<RuntimeEvent>, cursor: nat, pending: seq<RuntimeEvent>) {
    exists from: nat, to: nat :: cursor <= from <= to <= |history| && pending == history[from..to]
  }

  /** Never having got past a look while more than the limit behind. */
  ghost predicate KeptUp(w: World, steps: seq<Step>) {
    forall k :: 0 <= k < |steps| && steps[k].Look? ==> LooksInTime(Play(w, steps[..k]))
  }

  predicate LooksInTime(w: World) { LookEnabled(w) ==> |w.history| - w.cursor <= w.limit }

  /** Whether the turn had already ended at this connection's last look. */
  predicate SawEnd(limit: nat, steps: seq<Step>)
    decreases |steps|
  {
    if steps == [] then false
    else
      var front, w := steps[..|steps| - 1], Play(Start(limit), steps[..|steps| - 1]);
      match steps[|steps| - 1]
      case Look => if LookEnabled(w) then TerminalOf(w.history).Some? else SawEnd(limit, front)
      case Reconnect => false
      case _ => SawEnd(limit, front)
  }

  // ----- Looking --------------------------------------------------------------------

  lemma {:induction false} AfterStretch(history: seq<RuntimeEvent>, start: nat, cursor: nat)
    requires WellOrdered(history) && start <= |history| && cursor <= |history|
    ensures After(history[start..], cursor) == history[if start < cursor then cursor else start..]
    decreases |history| - start
  {
    if start < |history| {
      AfterStretch(history, start + 1, cursor);
      assert history[start..][1..] == history[start + 1..];
      assert history[start..][0].sequence == start + 1;
    }
  }

  /** A look finds everything beyond the cursor, except what the log has dropped. */
  lemma LookFinds(history: seq<RuntimeEvent>, limit: nat, cursor: nat)
    requires WellOrdered(history) && cursor <= |history|
    ensures After(LastOf(history, limit), cursor)
      == history[if |history| - limit > cursor then |history| - limit else cursor..]
  {
    var start := if |history| <= limit then 0 else |history| - limit;
    assert LastOf(history, limit) == history[start..];
    AfterStretch(history, start, cursor);
  }

  // ----- Every schedule --------------------------------------------------------------

  lemma StepKeeps(w: World, step: Step)
    requires Invariant(w)
    ensures Invariant(Next(w, step))
  {
    match step {
      case Publish(e) => PublishKeeps(w, e);
      case Look => LookKeeps(w);
      case Give => GiveKeeps(w);
      case _ =>
    }
  }

  lemma PublishKeeps(w: World, e: RuntimeEvent)
    requires Invariant(w)
    ensures Invariant(Next(w, Publish(e)))
  {
    var v := Next(w, Publish(e));
    if v != w {
      WellOrderedAppend(w.history, e);
      if w.phase.Giving? {
        var from: nat, to: nat :| w.cursor <= from <= to <= |w.history| && w.phase.pending == w.history[from..to];
        assert v.history[from..to] == w.history[from..to];
      }
    }
  }

  lemma LookKeeps(w: World)
    requires Invariant(w)
    ensures Invariant(Next(w, Look))
  {
    hide WellOrdered;
    LookFinds(w.history, w.limit, w.cursor);
    var from: nat := if |w.history| - w.limit > w.cursor then |w.history| - w.limit else w.cursor;
    assert Next(w, Look).phase.Giving? && w.phase.Looking? ==> Stretch(w.history, w.cursor, w.history[from..|w.history|]);
  }

  lemma GiveKeeps(w: World)
    requires Invariant(w)
    ensures Invariant(Next(w, Give))
  {
    if w.phase.Giving? && w.phase.pending != [] {
      var pending := w.phase.pending;
      var from: nat, to: nat :| w.cursor <= from <= to <= |w.history| && pending == w.history[from..to];
      GiveFrom(w.history, from, to);
      GotMore(w.history, w.got, w.cursor, pending[0]);
      hide WellOrdered, TerminalOf, Stretch, GotInOrder;
    }
  }

  lemma GotMore(history: seq<RuntimeEvent>, got: seq<RuntimeEvent>, cursor: nat, e: RuntimeEvent)
    requires GotInOrder(history, got, cursor) && Published(history, e) && e.sequence > cursor
    ensures GotInOrder(history, got + [e], e.sequence)
  {
    hide Published;
  }

  lemma GiveFrom(history: seq<RuntimeEvent>, from: nat, to: nat)
    requires WellOrdered(history) && from < to <= |history|
    ensures history[from].sequence == from + 1 && Stretch(history, from + 1, history[from..to][1..])
    ensures IsTerminal(history[from].kind) ==> TerminalOf(history).Some?
  {
    assert history[from..to][1..] == history[from + 1..to];
  }

  /** Under every schedule, over every chain of connections, what a subscriber gets is
      published events with strictly increasing numbers: in order and never twice. */
  lemma {:induction false} EverySchedule(limit: nat, steps: seq<Step>)
    ensures Invariant(Play(Start(limit), steps))
    decreases |steps|
  {
    if steps != [] {
      EverySchedule(limit, steps[..|steps| - 1]);
      StepKeeps(Play(Start(limit), steps[..|steps| - 1]), steps[|steps| - 1]);
    }
  }

  /** Everything up to the cursor was given, and what is pending follows it. */
  ghost predicate GapFree(w: World) {
    && w.cursor <= |w.history| && w.got == w.history[..w.cursor]
    && (w.phase.Giving? ==> w.phase.pending <= w.history[w.cursor..])
  }

  lemma GapFreeStep(w: World, step: Step)
    requires Invariant(w) && GapFree(w)
    requires step.Look? ==> LooksInTime(w)
    ensures GapFree(Next(w, step))
  {
    var v := Next(w, step);
    match step {
      case Publish(e) =>
        assert v.history[..w.cursor] == w.history[..w.cursor];
        assert w.history[w.cursor..] <= v.history[w.cursor..];
      case Look => LookFinds(w.history, w.limit, w.cursor);
      case Give => GapFreeGive(w);
      case _ =>
    }
  }

  lemma GapFreeGive(w: World)
    requires Invariant(w) && GapFree(w)
    ensures GapFree(Next(w, Give))
  {
    if w.phase.Giving? && w.phase.pending != [] {
      var pending, rest := w.phase.pending, w.history[w.cursor..];
      assert pending[0] == rest[0] == w.history[w.cursor];
      assert pending[1..] <= rest[1..] == w.history[w.cursor + 1..];
    }
  }

  /** A subscriber that never falls more than the limit behind misses nothing. */
  lemma {:induction false} KeepingUpMissesNothing(limit: nat, steps: seq<Step>)
    requires KeptUp(Start(limit), steps)
    ensures GapFree(Play(Start(limit), steps))
    decreases |steps|
  {
    if steps != [] {
      var front := steps[..|steps| - 1];
      assert KeptUp(Start(limit), front) by {
        forall k | 0 <= k < |front| && front[k].Look?
          ensures LooksInTime(Play(Start(limit), front[..k]))
        {
          assert front[..k] == steps[..k] && steps[k].Look?;
        }
      }
      KeepingUpMissesNothing(limit, front);
      EverySchedule(limit, front);
      GapFreeStep(Play(Start(limit), front), steps[|steps| - 1]);
    }
  }

  /** A look while more than the limit behind loses exactly what the log has dropped. */
  lemma FallingBehindLoses(w: World)
    requires Invariant(w) && w.phase.Looking? && w.limit > 0 && |w.history| - w.cursor > w.limit
    ensures var v := Next(Next(w, Look), Give);
      |v.got| == |w.got| + 1 && v.got[|w.got|] == w.history[|w.history| - w.limit] && v.cursor == |w.history| - w.limit + 1
  {
    LookFinds(w.history, w.limit, w.cursor);
  }

  // ----- The end of the stream ---------------------------------------------------------

  function Gives(n: nat): (steps: seq<Step>)
    ensures |steps| == n && forall i :: 0 <= i < n ==> steps[i] == Give
  {
    seq(n, _ => Give)
  }

  lemma PlayNext(w: World, steps: seq<Step>, step: Step)
    ensures Play(w, steps + [step]) == Next(Play(w, steps), step)
  {
    assert (steps + [step])[..|steps|] == steps;
  }

  /** One subscription may end before the terminal event: it arrives while the others
      are given, and the check that follows only asks whether the turn has ended. */
  lemma MayEndBeforeTheTerminal(first: RuntimeEvent, end: RuntimeEvent)
    requires first.sequence == 1 && end.sequence == 2 && !IsTerminal(first.kind) && IsTerminal(end.kind)
    ensures var w := Play(Start(128), [Publish(first), Look, Publish(end), Give, Check]);
      w.phase.Closed? && w.got == [first] && w.history == [first, end] && TerminalOf(w.history) == Some(end.kind)
  {
    hide Play;
    var w0 := Start(128);
    var w1 := Next(w0, Publish(first));
    assert w1.history == [first] && LastOf([first], 128) == [first];
    LookFinds([first], 128, 0);
    assert [first][0..] == [first] && [first][1..] == [];
    var w2 := Next(w1, Look);
    assert w2.phase == Giving([first]);
    var w3 := Next(w2, Publish(end));
    assert w3.history == [first, end];
    var w4 := Next(w3, Give);
    assert w4.phase == Giving([]);
    PlaysFive(w0, Publish(first), Look, Publish(end), Give, Check);
  }

  lemma PlaysFive(w: World, a: Step, b: Step, c: Step, d: Step, e: Step)
    ensures Play(w, [a, b, c, d, e]) == Next(Next(Next(Next(Next(w, a), b), c), d), e)
  {
    hide Play, Next;
    PlaysNothing(w);
    PlayNext(w, [], a);
    PlayNext(w, [a], b);
    PlayNext(w, [a, b], c);
    PlayNext(w, [a, b, c], d);
    PlayNext(w, [a, b, c, d], e);
    assert [] + [a] == [a] && [a] + [b] == [a, b] && [a, b] + [c] == [a, b, c];
    assert [a, b, c] + [d] == [a, b, c, d] && [a, b, c, d] + [e] == [a, b, c, d, e];
  }

  // ----- When a closed connection has delivered the end -----------------------------------

  /** What the last look decides: having seen the end, everything up to it is given or
      pending; not having seen it, no terminal event is. A log of nothing gives nothing. */
  ghost predicate Linked(w: World, saw: bool) {
    && (w.limit == 0 ==> w.got == [] && (w.phase.Giving? ==> w.phase.pending == []))
    && (w.phase.Giving? && saw ==> TerminalOf(w.history).Some? && (w.limit > 0 ==> UpToTheEnd(w)))
    && (w.phase.Giving? && !saw ==> NoTerminal(w.got) && NoTerminal(w.phase.pending))
    && (w.phase.Closed? ==> (Delivered(w) <==> w.limit > 0 && saw))
  }

  ghost predicate UpToTheEnd(w: World)
    requires w.phase.Giving?
  {
    var n := |w.phase.pending|;
    n <= |w.history| && w.phase.pending == w.history[|w.history| - n..] && (n == 0 ==> w.cursor == |w.history|)
  }

  predicate NoTerminal(events: seq<RuntimeEvent>) {
    forall i :: 0 <= i < |events| ==> !IsTerminal(events[i].kind)
  }

  /** The last event given is terminal. */
  predicate Delivered(w: World) { w.got != [] && IsTerminal(w.got[|w.got| - 1].kind) }

  lemma GivenIsPublished(w: World)
    requires Invariant(w) && TerminalOf(w.history).None?
    ensures NoTerminal(w.history) && NoTerminal(w.got)
  {
    forall i | 0 <= i < |w.got| ensures !IsTerminal(w.got[i].kind) {
      assert Published(w.history, w.got[i]);
    }
  }

  lemma LookLinks(w: World)
    requires Invariant(w) && LookEnabled(w) && (w.limit == 0 ==> w.got == [])
    ensures Linked(Next(w, Look), TerminalOf(w.history).Some?)
  {
    LookFinds(w.history, w.limit, w.cursor);
    if TerminalOf(w.history).None? {
      GivenIsPublished(w);
    }
  }

  lemma GiveLinks(w: World, saw: bool)
    requires Invariant(w) && Linked(w, saw)
    ensures Linked(Next(w, Give), saw)
  {
    if w.phase.Giving? && w.phase.pending != [] {
      var pending := w.phase.pending;
      assert Next(w, Give).got[|w.got|] == pending[0];
      if saw {
        TerminalIsLast(w.history);
        assert pending[0] == w.history[|w.history| - |pending|];
        assert pending[1..] == w.history[|w.history| - |pending| + 1..];
      }
    }
  }

  lemma CheckLinks(w: World, saw: bool)
    requires Invariant(w) && Linked(w, saw)
    ensures Linked(Next(w, Check), saw)
  {
    if w.phase == Giving([]) && saw && w.limit > 0 {
      TerminalIsLast(w.history);
      assert Published(w.history, w.got[|w.got| - 1]);
    }
  }

  lemma PublishLinks(w: World, saw: bool, e: RuntimeEvent)
    requires Invariant(w) && Linked(w, saw)
    ensures Linked(Next(w, Publish(e)), saw)
  {
  }

  lemma {:induction false} EveryScheduleLinks(limit: nat, steps: seq<Step>)
    ensures Linked(Play(Start(limit), steps), SawEnd(limit, steps))
    decreases |steps|
  {
    if steps != [] {
      var front, step := steps[..|steps| - 1], steps[|steps| - 1];
      EverySchedule(limit, front);
      EveryScheduleLinks(limit, front);
      PlayKeepsLimit(limit, front);
      var w := Play(Start(limit), front);
      match step {
        case Publish(e) => PublishLinks(w, SawEnd(limit, front), e);
        case Look =>
          if LookEnabled(w) {
            LookLinks(w);
          }
        case Give => GiveLinks(w, SawEnd(limit, front));
        case Check => CheckLinks(w, SawEnd(limit, front));
        case Reconnect =>
      }
    }
  }

  lemma {:induction false} PlayKeepsLimit(limit: nat, steps: seq<Step>)
    ensures Play(Start(limit), steps).limit == limit
    decreases |steps|
  {
    if steps != [] {
      PlayKeepsLimit(limit, steps[..|steps| - 1]);
    }
  }

  /** Over every schedule: a connection that has closed delivered the terminal event if
      and only if the turn had already ended at its last look (and the log holds anything
      at all). A terminal event that arrives after that look is left to a reconnection. */
  lemma ClosedDeliveredExactlyWhen(limit: nat, steps: seq<Step>)
    requires Play(Start(limit), steps).phase.Closed?
    ensures Delivered(Play(Start(limit), steps)) <==> limit > 0 && SawEnd(limit, steps)
  {
    hide SawEnd, Play;
    EveryScheduleLinks(limit, steps);
    PlayKeepsLimit(limit, steps);
  }

  /** What the log still holds beyond the cursor. */
  function Backlog(w: World): nat
    requires w.cursor <= |w.history|
  {
    if |w.history| - w.cursor < w.limit then |w.history| - w.cursor else w.limit
  }

  /** Once the turn has ended, one more connection gives all the log still has beyond
      the cursor, and closes on the terminal event. */
  lemma ReconnectReachesTheEnd(w: World)
    requires Invariant(w) && TerminalOf(w.history).Some? && w.limit > 0 && w.cursor < |w.history|
    ensures
      var v := Play(w, [Reconnect, Look] + Gives(Backlog(w)));
      v.phase.Closed? && v.cursor == |w.history| && v.got == w.got + w.history[|w.history| - Backlog(w)..]
  {
    hide Play, TerminalOf, WellOrdered, Published, Stretch, Gives;
    Reopens(w);
    GivesOut(w, [Reconnect, Look], Backlog(w), Backlog(w));
    assert w.history[|w.history| - Backlog(w)..|w.history|] == w.history[|w.history| - Backlog(w)..];
  }

  lemma Reopens(w: World)
    requires WellOrdered(w.history) && w.cursor <= |w.history| && TerminalOf(w.history).Some?
    ensures var v := Play(w, [Reconnect, Look]);
      v.history == w.history && v.got == w.got && v.phase == Giving(w.history[|w.history| - Backlog(w)..])
  {
    hide Play, Next, WellOrdered, TerminalOf;
    LooksAgain(w);
    PlayNext(w, [], Reconnect);
    PlayNext(w, [Reconnect], Look);
    PlaysNothing(w);
    assert [] + [Reconnect] == [Reconnect] && [Reconnect] + [Look] == [Reconnect, Look];
  }

  lemma LooksAgain(w: World)
    requires WellOrdered(w.history) && w.cursor <= |w.history| && TerminalOf(w.history).Some?
    ensures var v := Next(Next(w, Reconnect), Look);
      v.history == w.history && v.got == w.got && v.phase == Giving(w.history[|w.history| - Backlog(w)..])
  {
    hide WellOrdered, TerminalOf, LastOf, After;
    LookFinds(w.history, w.limit, w.cursor);
  }

  lemma PlaysNothing(w: World)
    ensures Play(w, []) == w
  {
  }

  lemma TerminalIsLast(history: seq<RuntimeEvent>)
    requires WellOrdered(history) && TerminalOf(history).Some?
    ensures forall i :: 0 <= i < |history| ==> (IsTerminal(history[i].kind) <==> i == |history| - 1)
  {
  }

  lemma GiveOne(w: World, from: nat)
    requires WellOrdered(w.history) && TerminalOf(w.history).Some?
    requires from < |w.history| && w.phase == Giving(w.history[from..])
    ensures var v := Next(w, Give);
      && v.history == w.history && v.got == w.got + [w.history[from]] && v.cursor == from + 1
      && v.phase == (if from + 1 == |w.history| then Closed else Giving(w.history[from + 1..]))
  {
    TerminalIsLast(w.history);
    assert w.history[from..][1..] == w.history[from + 1..];
  }

  lemma {:induction false} GivesOut(w: World, opening: seq<Step>, n: nat, k: nat)
    requires WellOrdered(w.history) && 0 < n <= |w.history| && TerminalOf(w.history).Some? && k <= n
    requires var v := Play(w, opening);
      v.history == w.history && v.got == w.got && v.phase == Giving(w.history[|w.history| - n..])
    ensures
      var v := Play(w, opening + Gives(k));
      && v.history == w.history && v.got == w.got + w.history[|w.history| - n..|w.history| - n + k]
      && (k < n ==> v.phase == Giving(w.history[|w.history| - n + k..]))
      && (k == n ==> v.phase.Closed? && v.cursor == |w.history|)
    decreases k
  {
    hide Play, Next, WellOrdered, TerminalOf;
    if k == 0 {
      assert opening + Gives(0) == opening;
    } else {
      GivesOut(w, opening, n, k - 1);
      assert opening + Gives(k) == (opening + Gives(k - 1)) + [Give];
      PlayNext(w, opening + Gives(k - 1), Give);
      var from := |w.history| - n + k - 1;
      GiveOne(Play(w, opening + Gives(k - 1)), from);
      assert w.history[|w.history| - n..from] + [w.history[from]] == w.history[|w.history| - n..from + 1];
    }
  }
}
