/** The machine a cutover works on, and the host calls that read and change it. Every
    call may fail, before its effect, after it, or part of the way; `trace` holds every
    state the machine went through, so that any of them can be where a process dies. */
module CutoverHost {
  import opened Prelude
  import opened CutoverDatabase

  const QUALIFICATION: seq<Instance> := [NextcloudIncremental, ImmichIncremental, ImmichPerson, ImmichRelation]
  const SCHEDULES: seq<Instance> := [NextcloudIncremental, NextcloudFull, ImmichIncremental, ImmichDaily]
  const WRITERS: seq<Instance> :=
    [NextcloudFull, NextcloudIncremental, ImmichFull, ImmichIncremental, ImmichPerson, ImmichRelation, ImmichDaily]

  /** The files `install` writes: registry, one environment per pipeline, service, timers. */
  const FILES := 13

  datatype Phase = Prepared | Activating | Pass | Aborting | AbortIncomplete | Aborted

  datatype Journal = Journal(
    phase: Phase, sha: nat, oldTarget: nat, context: nat, baseline: Evidence,
    qualified: seq<Instance>, verified: Option<Evidence>)

  /** What outlives a process: journal, files, current release, timers that are enabled
      or active, writer services that run, and enabled identities. */
  datatype Machine = Machine(
    journal: Option<Journal>, config: nat, current: nat,
    timers: set<Instance>, writers: set<Instance>, identities: Identities)

  ghost predicate AllDisabled(ids: Identities) {
    forall t: TableName, id :: id in ids.Of(t) ==> !ids.Of(t)[id]
  }

  /** No row is enabled that was not enabled before. */
  ghost predicate EnablesNothing(before: Identities, after: Identities) {
    forall t: TableName, id :: id in after.Of(t) && after.Of(t)[id] ==> id in before.Of(t) && before.Of(t)[id]
  }

  ghost predicate Inert(h: Machine) {
    h.timers == {} && h.writers == {} && AllDisabled(h.identities)
  }

  /** Inert, and with a journal that keeps any further apply from starting. */
  ghost predicate Parked(h: Machine) { Inert(h) && h.journal.Some? }

  /** Safety of a machine against how it was when the cutover was first attempted. */
  ghost predicate Safe(origin: Machine, h: Machine) {
    && (h.journal.None? ==>
          && h.config == origin.config && h.current == origin.current && EnablesNothing(origin.identities, h.identities)
          && (h.writers <= origin.writers || origin.timers != {}))
    && (h.timers <= origin.timers || (h.journal.Some? && h.journal.value.qualified == QUALIFICATION))
    && (h.journal != origin.journal ==> h.journal.Some? && JournalTrue(h.journal.value, h))
  }

  /** What the journal's phase says is so. */
  ghost predicate JournalTrue(j: Journal, h: Machine) {
    Earned(j) && (j.phase.Aborted? ==> Inert(h))
  }

  /** The phases that must be earned, as far as the journal shows. */
  ghost predicate Earned(j: Journal) {
    j.phase.Activating? || j.phase.Pass? ==>
      j.qualified == QUALIFICATION && j.verified.Some? && OnlyGrown(j.baseline, j.verified.value)
  }

  /** Writers come and go on their own; while no timer is on, none comes. */
  predicate Calm(a: Machine, h: Machine) {
    a.timers == {} ==> h.writers <= a.writers
  }

  predicate Drift(a: Machine, h: Machine) {
    h == a.(writers := h.writers) && Calm(a, h)
  }

  predicate Saving(a: Machine, j: Journal, h: Machine) {
    h == a.(journal := h.journal, writers := h.writers) && Calm(a, h) && (h.journal == a.journal || h.journal == Some(j))
  }

  predicate Installing(a: Machine, h: Machine) {
    h == a.(config := h.config, current := h.current, writers := h.writers) && Calm(a, h)
  }

  ghost predicate Switching(a: Machine, plan: Plan, enabled: bool, h: Machine) {
    && h == a.(identities := h.identities, writers := h.writers) && Calm(a, h)
    && (h.identities == a.identities || SetTo(a.identities, h.identities, plan, enabled))
  }

  predicate Qualifying(a: Machine, i: Instance, h: Machine) {
    h == a.(writers := h.writers) && (a.timers == {} ==> h.writers <= a.writers + {i})
  }

  predicate Scheduling(a: Machine, h: Machine) {
    h == a.(timers := h.timers, writers := h.writers)
  }

  predicate Stopping(a: Machine, h: Machine) {
    h == a.(timers := h.timers, writers := h.writers) && h.timers <= a.timers && Calm(a, h)
  }

  /** When a journal may be saved: it lists every qualification if timers were turned
      on, and its phase is earned. */
  ghost predicate SaveAllowed(origin: Machine, a: Machine, j: Journal) {
    && (a.timers <= origin.timers || j.qualified == QUALIFICATION)
    && (j.phase.Aborted? ==> Inert(a)) && Earned(j)
  }

  /** A journal of this cutover exists, and does not say it was aborted. */
  ghost predicate UnderWay(origin: Machine, a: Machine) {
    a.journal.Some? && !a.journal.value.phase.Aborted? && a.journal != origin.journal
  }

  // ----- Which moves stay safe -----------------------------------------------------------

  lemma DriftIsSafe(origin: Machine, a: Machine, h: Machine)
    requires Safe(origin, a) && Drift(a, h)
    ensures Safe(origin, h)
  {
  }

  lemma SaveIsSafe(origin: Machine, a: Machine, j: Journal, h: Machine)
    requires Safe(origin, a) && Saving(a, j, h)
    requires SaveAllowed(origin, a, j)
    ensures Safe(origin, h)
  {
    hide Preserved, OnlyGrown;
  }

  lemma InstallIsSafe(origin: Machine, a: Machine, h: Machine)
    requires Safe(origin, a) && Installing(a, h) && a.journal.Some?
    ensures Safe(origin, h)
  {
    hide Preserved, OnlyGrown;
  }

  lemma SwitchIsSafe(origin: Machine, a: Machine, plan: Plan, enabled: bool, h: Machine)
    requires Safe(origin, a) && Switching(a, plan, enabled, h)
    requires enabled ==> UnderWay(origin, a)
    ensures Safe(origin, h)
  {
    hide Preserved, OnlyGrown;
    if !enabled && h.identities != a.identities {
      forall t: TableName, id | id in h.identities.Of(t) && h.identities.Of(t)[id]
        ensures id in a.identities.Of(t) && a.identities.Of(t)[id]
      {
      }
    }
  }

  lemma QualifyIsSafe(origin: Machine, a: Machine, i: Instance, h: Machine)
    requires Safe(origin, a) && Qualifying(a, i, h)
    requires UnderWay(origin, a)
    ensures Safe(origin, h)
  {
    hide Preserved, OnlyGrown;
  }

  lemma ScheduleIsSafe(origin: Machine, a: Machine, h: Machine)
    requires Safe(origin, a) && Scheduling(a, h)
    requires UnderWay(origin, a) && a.journal.value.qualified == QUALIFICATION
    ensures Safe(origin, h)
  {
    hide Preserved, OnlyGrown;
  }

  lemma StopIsSafe(origin: Machine, a: Machine, h: Machine)
    requires Safe(origin, a) && Stopping(a, h)
    ensures Safe(origin, h)
  {
    hide Preserved, OnlyGrown;
  }

  function Timers(): set<Instance> { set i | i in SCHEDULES }

  class Host {
    const sha: nat
    const context: nat
    const plan: Plan
    const db: Database
    /** When false, any call may fail. */
    const reliable: bool
    ghost const origin: Machine
    var m: Machine
    var syncHeld: bool
    var controlHeld: bool
    var trace: seq<Machine>

    ghost predicate Valid()
      reads this, db
    {
      && db.Valid() && db.plan == plan && db.reliable == reliable && m.identities == db.identities
      && m in trace && forall h :: h in trace ==> h.timers <= Timers()
    }

    ghost predicate AllSafe()
      reads this
    {
      m in trace && forall h :: h in trace ==> Safe(origin, h)
    }

    ghost predicate AllParked()
      reads this
    {
      m in trace && forall h :: h in trace ==> Parked(h)
    }

    constructor (sha: nat, context: nat, plan: Plan, machine: Machine, reliable: bool, ghost origin: Machine)
      requires plan.Valid() && machine.timers <= Timers()
      ensures Valid() && m == machine && trace == [machine] && !syncHeld && !controlHeld && fresh(db)
      ensures this.sha == sha && this.context == context && this.plan == plan && this.origin == origin
      ensures this.reliable == reliable
    {
      this.sha, this.context, this.plan, this.reliable, this.origin := sha, context, plan, reliable, origin;
      m, trace, syncHeld, controlHeld := machine, [machine], false, false;
      db := new Database(plan, machine.identities, reliable);
    }

    method Move(h: Machine)
      requires Valid() && h.identities == db.identities && h.timers <= Timers()
      modifies this`m, this`trace
      ensures Valid() && m == h && trace == old(trace) + [h]
    {
      m, trace := h, trace + [h];
    }

    /** Writers that finish, and while a timer is on, writers it starts. */
    method Environment()
      requires Valid()
      modifies this`m, this`trace
      ensures Valid() && Drift(old(m), m) && trace == old(trace) + [m]
      ensures old(AllSafe()) ==> AllSafe()
      ensures old(AllParked()) ==> AllParked()
    {
      var writers: set<Instance> := *;
      if m.timers == {} {
        writers := writers * m.writers;
      }
      ghost var a := m;
      Move(m.(writers := writers));
      if old(AllSafe()) {
        DriftIsSafe(origin, a, m);
      }
    }

    /** `sync()`: never asked for while this process holds the lock, it would time out on itself. */
    method AcquireSync() returns (ok: bool)
      requires Valid() && !syncHeld
      modifies this`m, this`trace, this`syncHeld
      ensures Valid() && Drift(old(m), m) && old(trace) <= trace && syncHeld == ok
      ensures reliable ==> ok
      ensures old(AllSafe()) ==> AllSafe()
      ensures old(AllParked()) ==> AllParked()
    {
      Environment();
      var fails: bool := *;
      ok := reliable || !fails;
      syncHeld := ok;
    }

    method ReleaseSync()
      requires syncHeld
      modifies this`syncHeld
      ensures !syncHeld
    {
      syncHeld := false;
    }

    method AcquireControl() returns (ok: bool)
      requires !controlHeld
      modifies this`controlHeld
      ensures controlHeld == ok && (reliable ==> ok)
    {
      var fails: bool := *;
      ok := reliable || !fails;
      controlHeld := ok;
    }

    method ReleaseControl()
      requires controlHeld
      modifies this`controlHeld
      ensures !controlHeld
    {
      controlHeld := false;
    }

    /** A check that reads: it may fail, but passes only if the condition holds. */
    method Check(condition: bool) returns (ok: bool)
      ensures ok ==> condition
      ensures reliable && condition ==> ok
    {
      var fails: bool := *;
      ok := condition && (reliable || !fails);
    }

    method ReadState() returns (state: Option<Journal>)
      ensures state.Some? || reliable ==> state == m.journal
    {
      var fails: bool := *;
      state := if fails && !reliable then None else m.journal;
    }

    /** An atomic replacement; an error after it leaves the new journal in place. */
    method Save(j: Journal) returns (ok: bool)
      requires Valid()
      modifies this`m, this`trace
      ensures Valid() && Saving(old(m), j, m) && (ok ==> m.journal == Some(j)) && (reliable ==> ok)
      ensures old(AllSafe()) && SaveAllowed(origin, old(m), j) ==> AllSafe()
      ensures old(AllParked()) ==> AllParked()
    {
      ghost var a := m;
      Environment();
      var written: bool := *;
      written := written || reliable;
      if written {
        ghost var b := m;
        Move(m.(journal := Some(j)));
        if old(AllSafe()) && SaveAllowed(origin, a, j) {
          SaveIsSafe(origin, b, j, m);
        }
      }
      var fails: bool := *;
      return written && (reliable || !fails);
    }

    method Install() returns (ok: bool)
      requires Valid()
      modifies this`m, this`trace
      ensures Valid() && Installing(old(m), m) && (ok ==> m.config == FILES && m.current == sha) && (reliable ==> ok)
      ensures old(AllSafe()) && old(m).journal.Some? ==> AllSafe()
    {
      for i := 0 to FILES
        invariant Valid() && Installing(old(m), m)
        invariant old(AllSafe()) && old(m).journal.Some? ==> AllSafe()
      {
        var fails: bool := *;
        if fails && !reliable {
          return false;
        }
        Environment();
        ghost var a := m;
        Move(m.(config := i + 1));
        if old(AllSafe()) && old(m).journal.Some? {
          InstallIsSafe(origin, a, m);
        }
      }
      var fails: bool := *;
      ok := reliable || !fails;
      if ok {
        ghost var a := m;
        Move(m.(config := FILES, current := sha));
        if old(AllSafe()) && old(m).journal.Some? {
          InstallIsSafe(origin, a, m);
        }
        fails := *;
        ok := reliable || !fails;
      }
    }

    method SetEnabled(enabled: bool) returns (ok: bool)
      requires Valid()
      modifies this`m, this`trace, db
      ensures Valid() && Switching(old(m), plan, enabled, m)
      ensures ok ==> SetTo(old(m).identities, m.identities, plan, enabled)
      ensures reliable && Planned(old(m).identities, plan) ==> ok
      ensures old(AllSafe()) && (enabled ==> UnderWay(origin, old(m))) ==> AllSafe()
      ensures !enabled && old(AllParked()) ==> AllParked()
    {
      hide Plan.Valid, Planned;
      if Planned(m.identities, plan) {
        TargetsArePlanned(m.identities, plan);
      }
      Environment();
      ghost var a := m;
      var done := db.SetEnabled(enabled);
      m := m.(identities := db.identities);
      trace := trace + [m];
      if old(AllSafe()) && (enabled ==> UnderWay(origin, a)) {
        SwitchIsSafe(origin, a, plan, enabled, m);
      }
      var fails: bool := *;
      return done && (reliable || !fails);
    }

    /** Start one writer service and wait for it; the service takes the sync lock itself,
        so this process must not hold it. */
    method Qualify(i: Instance) returns (ok: bool)
      requires Valid() && !syncHeld
      modifies this`m, this`trace
      ensures Valid() && Qualifying(old(m), i, m)
      ensures ok && old(m).timers == {} ==> m.writers <= old(m).writers - {i}
      ensures reliable ==> ok
      ensures old(AllSafe()) && UnderWay(origin, old(m)) ==> AllSafe()
    {
      ghost var a := m;
      var fails: bool := *;
      ok := reliable || !fails;
      if ok {
        Move(m.(writers := m.writers + {i}));
        if old(AllSafe()) && UnderWay(origin, a) {
          QualifyIsSafe(origin, a, i, m);
        }
        Environment();
        fails := *;
        ok := reliable || !fails;
        if ok {
          ghost var b := m;
          Move(m.(writers := m.writers - {i}));
          if old(AllSafe()) && UnderWay(origin, a) {
            QualifyIsSafe(origin, b, i, m);
          }
        }
      }
    }

    /** Enable and start the timers, one after the other. */
    method Schedules() returns (ok: bool)
      requires Valid()
      modifies this`m, this`trace
      ensures Valid() && Scheduling(old(m), m) && (reliable ==> ok && m.timers == Timers())
      ensures old(AllSafe()) && UnderWay(origin, old(m)) && old(m).journal.value.qualified == QUALIFICATION ==> AllSafe()
    {
      for i := 0 to |SCHEDULES|
        invariant Valid() && Scheduling(old(m), m) && forall k :: 0 <= k < i ==> SCHEDULES[k] in m.timers
        invariant
          old(AllSafe()) && UnderWay(origin, old(m)) && old(m).journal.value.qualified == QUALIFICATION ==> AllSafe()
      {
        var fails: bool := *;
        if fails && !reliable {
          return false;
        }
        Environment();
        ghost var a := m;
        Move(m.(timers := m.timers + {SCHEDULES[i]}));
        if old(AllSafe()) && UnderWay(origin, old(m)) && old(m).journal.value.qualified == QUALIFICATION {
          ScheduleIsSafe(origin, a, m);
        }
      }
      var fails: bool := *;
      ok := reliable || !fails;
    }

    /** Stop and disable the timers, then stop the writers; go on past failures. Success
        means that nothing runs and nothing can start: the timers go first. */
    method Stop() returns (ok: bool)
      requires Valid()
      modifies this`m, this`trace
      ensures Valid() && Stopping(old(m), m) && (ok ==> m.timers == {} && m.writers == {}) && (reliable ==> ok)
      ensures old(AllSafe()) ==> AllSafe()
      ensures old(AllParked()) ==> AllParked()
    {
      ok := true;
      for i := 0 to |SCHEDULES|
        invariant Valid() && Stopping(old(m), m) && (old(AllSafe()) ==> AllSafe()) && (old(AllParked()) ==> AllParked())
        invariant (reliable ==> ok) && (ok ==> forall k :: 0 <= k < i ==> SCHEDULES[k] !in m.timers)
      {
        var fails := StopUnit(SCHEDULES[i], true);
        ok := ok && !fails;
      }
      assert ok ==> m.timers == {};
      for i := 0 to |WRITERS|
        invariant Valid() && Stopping(old(m), m) && (old(AllSafe()) ==> AllSafe()) && (old(AllParked()) ==> AllParked())
        invariant (reliable ==> ok) && (ok ==> m.timers == {} && forall k :: 0 <= k < i ==> WRITERS[k] !in m.writers)
      {
        var fails := StopUnit(WRITERS[i], false);
        ok := ok && !fails;
      }
      EveryInstanceWrites();
      assert ok ==> forall w :: w in WRITERS ==> w !in m.writers;
      assert ok ==> forall w :: w !in m.writers;
    }

    /** Stop one unit. It may fail with the unit stopped or not. */
    method StopUnit(unit: Instance, timer: bool) returns (fails: bool)
      requires Valid()
      modifies this`m, this`trace
      ensures Valid() && Stopping(old(m), m) && m.timers <= old(m).timers
      ensures old(m).timers == {} ==> m.writers <= old(m).writers
      ensures reliable ==> !fails
      ensures !fails ==> if timer then unit !in m.timers else unit !in m.writers
      ensures old(AllSafe()) ==> AllSafe()
      ensures old(AllParked()) ==> AllParked()
    {
      Environment();
      fails := *;
      fails := fails && !reliable;
      var stopped: bool := *;
      if stopped || !fails {
        ghost var a := m;
        Move(if timer then m.(timers := m.timers - {unit}) else m.(writers := m.writers - {unit}));
        if old(AllSafe()) {
          StopIsSafe(origin, a, m);
        }
      }
    }
  }

  lemma EveryInstanceWrites()
    ensures forall w: Instance :: w in WRITERS
  {
    forall w: Instance ensures w in WRITERS {
      assert w == WRITERS[0] || w == WRITERS[1] || w == WRITERS[2] || w == WRITERS[3]
        || w == WRITERS[4] || w == WRITERS[5] || w == WRITERS[6];
    }
  }
}
