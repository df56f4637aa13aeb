/** The cutover itself: apply, abort and verify over a host any call of which may fail. */
module Cutover {
  import opened Prelude
  import opened CutoverDatabase
  import opened CutoverHost

  /** The machine after a successful cutover: everything qualified, installed, enabled,
      scheduled, and recorded, with nothing that is preserved changed on the way. */
  ghost predicate Passed(h: Machine, sha: nat, plan: Plan, chain: seq<Evidence>) {
    && h.journal.Some? && h.journal.value.phase.Pass? && h.journal.value.sha == sha
    && h.journal.value.qualified == QUALIFICATION && h.timers == Timers() && h.config == FILES && h.current == sha
    && ReadsAs(h.identities, plan, true)
    && h.journal.value.verified.Some? && OnlyGrown(h.journal.value.baseline, h.journal.value.verified.value)
    && Qualifies(chain, QUALIFICATION) && chain[0] == h.journal.value.baseline
  }

  /** A machine on which the cutover was never attempted. */
  ghost predicate Untouched(h: Machine, plan: Plan) {
    h.journal.None? && h.config == 0 && h.timers == {} && h.writers == {} && ReadsAs(h.identities, plan, false)
  }

  /** A machine on which the recorded cutover still runs. */
  ghost predicate StillRuns(h: Machine, sha: nat, context: nat, plan: Plan) {
    && h.journal.Some? && h.journal.value.phase.Pass? && h.journal.value.sha == sha
    && h.journal.value.qualified == QUALIFICATION && h.journal.value.context == context
    && h.journal.value.verified.Some?
    && h.timers == Timers() && h.config == FILES && h.current == sha && ReadsAs(h.identities, plan, true)
  }

  /** A journal of this release and context, over the planned tables. */
  ghost predicate Recorded(h: Machine, sha: nat, context: nat, plan: Plan) {
    h.journal.Some? && h.journal.value.sha == sha && h.journal.value.context == context && Planned(h.identities, plan)
  }

  lemma UntouchedIsPlanned(h: Machine, plan: Plan)
    requires ReadsAs(h.identities, plan, false)
    ensures Planned(h.identities, plan)
  {
  }

  /** What of `state` an exception leaves for the abort. */
  datatype Run = Run(ok: bool, state: Option<Journal>)

  lemma QualifiesAppend(chain: seq<Evidence>, pipelines: seq<Instance>, after: Evidence, pipeline: Instance)
    requires Qualifies(chain, pipelines) && GainsRun(chain[|pipelines|], after, pipeline)
    ensures Qualifies(chain + [after], pipelines + [pipeline])
  {
    hide GainsRun;
  }

  class Cutover {
    const host: Host
    var abortConfirmed: bool

    constructor (host: Host)
      ensures this.host == host && !abortConfirmed
    {
      this.host, abortConfirmed := host, false;
    }

    ghost predicate Ready()
      reads this, host, host.db
    {
      host.Valid() && host.AllSafe() && !host.syncHeld
    }

    /** Before anything: no journal, no file, nothing that runs, no identity enabled. */
    method Preflight() returns (evidence: Option<Evidence>)
      requires host.Valid()
      ensures evidence.Some? ==> Untouched(host.m, host.plan)
      ensures host.reliable && Untouched(host.m, host.plan) ==> evidence.Some?
    {
      var pass := host.Check(host.m.journal.None? && host.m.config == 0 && host.m.timers == {} && host.m.writers == {});
      if !pass {
        return None;
      }
      evidence := host.db.ReadEvidence(false);
    }

    /** `abort`: each part is tried whatever the others do; only if all succeed, and the
        journal says so durably, is the abort confirmed. */
    method Abort(state: Journal)
      requires Ready()
      requires host.m.timers <= host.origin.timers || state.qualified == QUALIFICATION
      modifies this, host, host.db
      ensures Ready() && host.controlHeld == old(host.controlHeld)
      ensures abortConfirmed ==>
        && Inert(host.m) && ReadsDisabled(host.m.identities, host.plan) && state.context == host.context
        && host.m.journal == Some(state.(phase := Aborted))
      ensures host.reliable && state.context == host.context && Planned(old(host.m).identities, host.plan) ==>
        abortConfirmed
      ensures old(host.AllParked()) ==> host.AllParked()
    {
      abortConfirmed := false;
      var saved := host.Save(state.(phase := Aborting));
      var stopped := host.Stop();
      var disabled := Disable(state);
      var problems := !saved || !stopped || !disabled;
      var closed := host.Save(state.(phase := if problems then AbortIncomplete else Aborted));
      if closed && !problems {
        abortConfirmed := true;
      }
    }

    /** Under the sync lock: disable the identities and read them back. */
    method Disable(state: Journal) returns (ok: bool)
      requires Ready()
      modifies host, host.db
      ensures Ready() && host.controlHeld == old(host.controlHeld)
      ensures host.m == old(host.m).(identities := host.m.identities, writers := host.m.writers)
      ensures Calm(old(host.m), host.m)
      ensures ok ==> ReadsDisabled(host.m.identities, host.plan) && state.context == host.context
      ensures host.reliable && state.context == host.context && Planned(old(host.m).identities, host.plan) ==> ok
      ensures old(host.AllParked()) ==> host.AllParked()
    {
      var locked := host.AcquireSync();
      if !locked {
        return false;
      }
      ok := host.Check(state.context == host.context);
      if ok {
        ghost var before := host.m.identities;
        ok := host.SetEnabled(false);
        if ok {
          DisablingReadsBackExactlyWhen(before, host.m.identities, host.plan);
        }
      }
      if ok {
        ok := host.db.VerifyDisabled();
      }
      if ok {
        ok := host.Check(true);
      }
      host.ReleaseSync();
    }

    /** The first locked block of `apply`. The journal is durable before the first write. */
    method Prepare() returns (run: Run)
      requires Ready()
      modifies host, host.db
      ensures Ready() && host.controlHeld == old(host.controlHeld)
      ensures run.ok ==> run.state.Some?
      ensures host.reliable && Untouched(old(host.m), host.plan) ==> run.state.Some?
      ensures run.state.Some? ==> Planned(host.m.identities, host.plan)
      ensures run.state.None? ==> Drift(old(host.m), host.m) && (old(host.AllParked()) ==> host.AllParked())
      ensures run.state.Some? ==>
        host.m.timers == {} && old(host.m).journal.None? && host.origin.journal.None? && run.state.value.qualified == []
        && run.state.value.context == host.context && run.state.value.phase.Prepared?
      ensures run.ok ==>
        && host.m.journal == run.state && run.state.value.sha == host.sha
        && ReadsAs(host.m.identities, host.plan, true)
        && host.m.config == FILES && host.m.current == host.sha
    {
      hide Preserved, OnlyGrown, Compare, GainsRun, SetTo, ReadsAs, Planned;
      var locked := host.AcquireSync();
      if !locked {
        return Run(false, None);
      }
      var before := Preflight();
      if before.None? {
        host.ReleaseSync();
        return Run(false, None);
      }
      UntouchedIsPlanned(host.m, host.plan);
      var state := Journal(Prepared, host.sha, host.m.current, host.context, before.value, [], None);
      var compared;
      var ok := host.Save(state);
      if ok {
        ok, compared := PutInPlace(before.value);
      }
      host.ReleaseSync();
      return Run(ok, Some(state));
    }

    /** Install, enable, and compare: nothing preserved may have changed. */
    method PutInPlace(before: Evidence) returns (ok: bool, compared: Evidence)
      requires host.Valid() && host.AllSafe() && host.syncHeld
      requires UnderWay(host.origin, host.m) && host.m.timers == {} && Planned(host.m.identities, host.plan)
      modifies host, host.db
      ensures Planned(host.m.identities, host.plan)
      ensures host.Valid() && host.AllSafe() && host.syncHeld && host.controlHeld == old(host.controlHeld)
      ensures host.m.timers == {} && host.m.journal == old(host.m).journal
      ensures ok ==>
        ReadsAs(host.m.identities, host.plan, true) && host.m.config == FILES && host.m.current == host.sha
      ensures ok ==> OnlyGrown(before, compared)
    {
      compared := before;
      hide Preserved, OnlyGrown, Compare, GainsRun, SetTo, ReadsAs, Planned;
      ok := host.Install();
      if ok {
        ok := host.Check(host.m.config == FILES && host.m.current == host.sha);
      }
      if ok {
        ok := host.Check(host.m.timers == {});
      }
      if ok {
        ghost var identities := host.m.identities;
        ok := host.SetEnabled(true);
        if host.m.identities != identities {
          SettingKeepsPlanned(identities, host.m.identities, host.plan, true);
        }
      }
      if ok {
        var after := host.db.ReadEvidence(true);
        ok := after.Some? && Compare(before, after.value, None);
        if ok {
          compared := after.value;
          ComparesExactlyWhen(before, compared, QUALIFICATION[0]);
        }
      }
    }

    /** One qualification: run the service, then compare and record under the lock. */
    method QualifyOne(state: Journal, before: Evidence, i: nat) returns (run: Run, after: Evidence)
      requires Ready() && i < |QUALIFICATION| && state.qualified == QUALIFICATION[..i] && state.phase.Prepared?
      requires host.m.journal == Some(state) && host.origin.journal.None? && host.m.timers == {}
      modifies host
      ensures Ready() && host.controlHeld == old(host.controlHeld) && host.m.timers == {}
      ensures host.m == old(host.m).(journal := host.m.journal, writers := host.m.writers)
      ensures run.state.Some? && run.state.value.context == state.context
      ensures run.ok ==>
        && run.state == Some(state.(qualified := QUALIFICATION[..i + 1])) && host.m.journal == run.state
        && GainsRun(before, after, QUALIFICATION[i]) && ReadsAs(host.m.identities, host.plan, true)
    {
      hide Preserved, OnlyGrown, Compare, GainsRun, SetTo, ReadsAs;
      after := before;
      var ok := host.Qualify(QUALIFICATION[i]);
      if !ok {
        return Run(false, Some(state)), after;
      }
      var locked := host.AcquireSync();
      if !locked {
        return Run(false, Some(state)), after;
      }
      ok := host.Check(host.m.timers == {});
      var read := host.db.ReadEvidence(true);
      if !ok || read.None? || !Compare(before, read.value, Some(QUALIFICATION[i])) {
        host.ReleaseSync();
        return Run(false, Some(state)), after;
      }
      after := read.value;
      ComparesExactlyWhen(before, after, QUALIFICATION[i]);
      var listed := state.(qualified := state.qualified + [QUALIFICATION[i]]);
      assert listed.qualified == QUALIFICATION[..i + 1];
      ok := host.Save(listed);
      host.ReleaseSync();
      return Run(ok, Some(listed)), after;
    }

    /** All qualifications in order, each compared with the one before. */
    method QualifyAll(prepared: Journal) returns (run: Run, chain: seq<Evidence>)
      requires Ready() && prepared.qualified == [] && prepared.phase.Prepared?
      requires host.m.journal == Some(prepared) && host.origin.journal.None? && host.m.timers == {}
      requires ReadsAs(host.m.identities, host.plan, true)
      modifies host
      ensures Ready() && host.controlHeld == old(host.controlHeld) && host.m.timers == {}
      ensures host.m == old(host.m).(journal := host.m.journal, writers := host.m.writers)
      ensures run.state.Some? && run.state.value.context == prepared.context
      ensures run.ok ==>
        && run.state == Some(prepared.(qualified := QUALIFICATION)) && host.m.journal == run.state
        && Qualifies(chain, QUALIFICATION) && chain[0] == prepared.baseline
    {
      hide Preserved, OnlyGrown, Compare, GainsRun, SetTo, ReadsAs;
      var state, before := prepared, prepared.baseline;
      chain := [before];
      for i := 0 to |QUALIFICATION|
        invariant Ready() && host.controlHeld == old(host.controlHeld) && host.m.timers == {}
        invariant host.m == old(host.m).(journal := host.m.journal, writers := host.m.writers)
        invariant state == prepared.(qualified := QUALIFICATION[..i]) && host.m.journal == Some(state)
        invariant Qualifies(chain, QUALIFICATION[..i]) && chain[0] == prepared.baseline && chain[i] == before
      {
        var after;
        run, after := QualifyOne(state, before, i);
        if !run.ok {
          return;
        }
        QualifiesAppend(chain, QUALIFICATION[..i], after, QUALIFICATION[i]);
        assert QUALIFICATION[..i + 1] == QUALIFICATION[..i] + [QUALIFICATION[i]];
        state, before, chain := run.state.value, after, chain + [after];
      }
      assert QUALIFICATION[..|QUALIFICATION|] == QUALIFICATION;
      run := Run(true, Some(state));
    }

    /** The last locked block: compare over everything, then timers on, then PASS. */
    method Activate(qualified: Journal) returns (run: Run)
      requires Ready() && qualified.qualified == QUALIFICATION && qualified.phase.Prepared?
      requires host.m.journal == Some(qualified) && host.origin.journal.None? && host.m.timers == {}
      modifies host
      ensures Ready() && host.controlHeld == old(host.controlHeld)
      ensures run.state.Some? && run.state.value.qualified == QUALIFICATION && run.state.value.context == qualified.context
      ensures host.m.identities == old(host.m).identities
      ensures run.ok ==>
        && host.m.journal == Some(qualified.(phase := Pass, verified := run.state.value.verified))
        && run.state.value.verified.Some? && OnlyGrown(qualified.baseline, run.state.value.verified.value)
        && host.m.timers == Timers() && host.m.config == FILES && host.m.current == host.sha
        && ReadsAs(host.m.identities, host.plan, true)
    {
      hide Preserved, OnlyGrown, Compare, GainsRun, SetTo, ReadsAs;
      run := Run(false, Some(qualified));
      var ok := host.AcquireSync();
      if !ok {
        return;
      }
      ok := host.Check(host.m.config == FILES && host.m.current == host.sha && host.m.timers == {});
      var read := host.db.ReadEvidence(true);
      if !ok || read.None? || !Compare(qualified.baseline, read.value, None) {
        host.ReleaseSync();
        return;
      }
      ComparesExactlyWhen(qualified.baseline, read.value, QUALIFICATION[0]);
      var state := qualified.(verified := read, phase := Activating);
      ok := host.Save(state);
      if ok {
        ok := host.Schedules();
      }
      if ok {
        ok := host.Check(host.m.timers == Timers());
      }
      if ok {
        state := state.(phase := Pass);
        ok := host.Save(state);
      }
      host.ReleaseSync();
      return Run(ok, Some(state));
    }

    /** `apply`: all of it or, from the moment a journal may exist, an abort. On an
        untouched machine, if no host call fails, the abort is confirmed. A second attempt
        changes nothing. */
    method Apply() returns (ok: bool, chain: seq<Evidence>)
      requires Ready() && !host.controlHeld
      modifies this, host, host.db
      ensures Ready() && !host.controlHeld
      ensures ok ==> Passed(host.m, host.sha, host.plan, chain) && !abortConfirmed
      ensures abortConfirmed ==>
        && Inert(host.m) && ReadsDisabled(host.m.identities, host.plan)
        && host.m.journal.Some? && host.m.journal.value.phase.Aborted?
      ensures host.reliable && Untouched(old(host.m), host.plan) ==> ok || abortConfirmed
      ensures old(host.m).journal.Some? ==>
        !ok && !abortConfirmed && Drift(old(host.m), host.m) && (old(host.AllParked()) ==> host.AllParked())
    {
      hide Preserved, OnlyGrown, Compare, GainsRun, SetTo, ReadsAs, Qualifies, ReadsDisabled;
      abortConfirmed, chain := false, [];
      var locked := host.AcquireControl();
      if !locked {
        return false, [];
      }
      var run := Prepare();
      if run.ok {
        run, chain := QualifyAll(run.state.value);
        if run.ok {
          run := Activate(run.state.value);
        }
      }
      if !run.ok && run.state.Some? {
        Abort(run.state.value);
      }
      host.ReleaseControl();
      ok := run.ok;
    }

    /** The operator's `abort`: of whatever the journal holds, if it is of this release. */
    method AbortRecorded() returns (ok: bool)
      requires Ready() && !host.controlHeld && !abortConfirmed
      modifies this, host, host.db
      ensures Ready() && !host.controlHeld && ok == abortConfirmed
      ensures host.reliable && Recorded(old(host.m), host.sha, host.context, host.plan) ==> ok
      ensures abortConfirmed ==>
        && Inert(host.m) && ReadsDisabled(host.m.identities, host.plan)
        && host.m.journal.Some? && host.m.journal.value.phase.Aborted?
      ensures old(host.AllParked()) ==> host.AllParked()
    {
      hide Preserved, OnlyGrown, Compare, GainsRun, SetTo, ReadsAs, ReadsDisabled;
      var locked := host.AcquireControl();
      if !locked {
        return false;
      }
      var state := host.ReadState();
      if state.Some? && state.value.sha == host.sha {
        Abort(state.value);
      }
      host.ReleaseControl();
      ok := abortConfirmed;
    }

    /** `verify` changes nothing, and passes only over a machine that runs as recorded. */
    method Verify() returns (ok: bool, now: Option<Evidence>)
      requires Ready() && !host.controlHeld
      modifies host
      ensures Ready() && !host.controlHeld && Drift(old(host.m), host.m)
      ensures ok ==> StillRuns(host.m, host.sha, host.context, host.plan) && now.Some?
      ensures StillRuns(host.m, host.sha, host.context, host.plan) && (host.reliable || ok) ==>
        now.Some? && (ok <==> OnlyGrown(host.m.journal.value.verified.value, now.value))
      ensures old(host.AllParked()) ==> host.AllParked()
    {
      hide Preserved, OnlyGrown, Compare, GainsRun, SetTo, ReadsAs, Safe;
      now := None;
      ok := host.AcquireControl();
      if !ok {
        return;
      }
      ok := host.AcquireSync();
      if ok {
        var state := host.ReadState();
        ok := state.Some? && state.value.phase.Pass? && state.value.sha == host.sha
          && state.value.qualified == QUALIFICATION && state.value.context == host.context;
        if ok {
          ok := host.Check(host.m.timers == Timers() && host.m.config == FILES && host.m.current == host.sha);
        }
        if ok {
          now := host.db.ReadEvidence(true);
          ok := now.Some? && state.value.verified.Some? && Compare(state.value.verified.value, now.value, None);
          if now.Some? && state.value.verified.Some? {
            ComparesExactlyWhen(state.value.verified.value, now.value, QUALIFICATION[0]);
          }
        }
        host.ReleaseSync();
      }
      host.ReleaseControl();
    }
  }

  // ----- The operator's whole story ---------------------------------------------------

  datatype Action = PreflightOnly | ApplyIt | AbortIt | VerifyIt

  /** One process: which release and context it runs with, what it is asked to do, and
      whether its host calls are reliable and whether it dies on the way. */
  datatype Command = Command(action: Action, sha: nat, context: nat, reliable: bool, dies: bool)

  /** One process over the machine. If it dies, the machine is left in any one of the
      states it went through; what it knew is lost. A machine that is inert under a
      journal stays inert, whatever process is run on it. */
  method RunProcess(command: Command, machine: Machine, plan: Plan, ghost origin: Machine)
    returns (left: Machine, confirmed: bool)
    requires plan.Valid() && machine.timers <= Timers() && Safe(origin, machine)
    ensures left.timers <= Timers() && Safe(origin, left)
    ensures confirmed ==> Parked(left) && left.journal.value.phase.Aborted?
    ensures Parked(machine) ==> Parked(left)
  {
    hide Preserved, OnlyGrown, Safe, ReadsDisabled, ReadsAs, Passed;
    var host := new Host(command.sha, command.context, plan, machine, command.reliable, origin);
    var cutover := new Cutover(host);
    var ok := false;
    match command.action {
      case PreflightOnly => var _ := cutover.Preflight();
      case ApplyIt => var _, _ := cutover.Apply();
      case AbortIt => var _ := cutover.AbortRecorded();
      case VerifyIt => var _, _ := cutover.Verify();
    }
    if command.dies {
      left :| left in host.trace;
      return left, false;
    }
    return host.m, cutover.abortConfirmed;
  }

  /** Over any number of processes, with any crashes: the machine is always safe, and
      from the first confirmed abort on it is inert. */
  method Story(commands: seq<Command>, plans: nat -> Plan, origin: Machine) returns (left: Machine, aborted: bool)
    requires forall c: nat :: plans(c).Valid()
    requires origin.timers <= Timers()
    ensures Safe(origin, left)
    ensures aborted ==> Parked(left)
  {
    left, aborted := origin, false;
    for i := 0 to |commands|
      invariant left.timers <= Timers() && Safe(origin, left)
      invariant aborted ==> Parked(left)
    {
      hide Safe, Parked;
      var confirmed;
      left, confirmed := RunProcess(commands[i], left, plans(commands[i].context), origin);
      aborted := aborted || confirmed;
    }
  }
}
