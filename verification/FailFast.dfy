/** Fail-fast: the first error of a phase cancels that phase, and no other. */
module FailFast {
  import opened Bytes
  import opened Pipeline
  import opened Schedules

  /** Some analyzer of a phase fails in the reference. */
  ghost predicate PhaseFails(c: Config, scanners: bool) {
    exists i: nat :: i < |c.analyzers| && c.analyzers[i].scanner == scanners && Reference(c.analyzers, i).err.Some?
  }

  /** The error of the first phase comes from a failing analyzer, and so does that of the second if the first had
      none. */
  ghost predicate Blamed(c: Config, s: State) {
    && (PhaseErr(s, false).Some? ==> PhaseFails(c, false))
    && (PhaseErr(s, false).None? && PhaseErr(s, true).Some? ==> PhaseFails(c, true))
  }

  lemma StepBlamed(c: Config, s: State, step: Step)
    requires c.failFast && AllOnTrack(c, s) && Blamed(c, s) && Enabled(c, s, step) && !s.cancelled && !step.Cancel?
    ensures Blamed(c, Apply(c, s, step))
  {
    hide StartOk, Active, Visible, ResultOf, Directory, Reference, NoneRefused, LaterWait, TaskOk;
    if step.Return? && s.status[step.i].run.err.Some? {
      AtWork(c, s, step.i);
      if Untroubled(c, s, step.i) {
        assert OnTrack(c, s, step.i);
        assert PhaseFails(c, c.analyzers[step.i].scanner);
      }
    }
  }

  lemma {:induction false} ScheduleBlamed(c: Config, steps: seq<Step>)
    requires c.failFast && Steady(c) && After(c, steps).Some? && !After(c, steps).value.cancelled
    ensures Blamed(c, After(c, steps).value)
  {
    hide Steady, Enabled, AllOnTrack, Inv, PhaseFails;
    if steps != [] {
      var prefix := steps[..|steps| - 1];
      ScheduleOnTrack(c, prefix);
      OnTrackInv(c, After(c, prefix).value);
      StepKeepsSlots(c, After(c, prefix).value, steps[|steps| - 1]);
      ScheduleBlamed(c, prefix);
      StepBlamed(c, After(c, prefix).value, steps[|steps| - 1]);
    }
  }

  lemma OnTrackInv(c: Config, s: State)
    requires AllOnTrack(c, s)
    ensures Inv(c, s)
  {
  }

  /** With fail-fast and a steady configuration, whether the first phase reports an error depends on the analyzers
      only. If it does not, the same holds of the second phase, and without any error the slots are the reference.
      After a failed first phase nothing is claimed of the scanners but that they see what it left. */
  lemma FailFastVerdict(c: Config, steps: seq<Step>)
    requires c.failFast && Steady(c) && Undisturbed(c, steps)
    ensures var s := After(c, steps).value;
            && (s.firstErr.Some? <==> PhaseFails(c, false))
            && (s.firstErr.None? ==> (s.groupErr.Some? <==> PhaseFails(c, true)))
            && (s.firstErr.None? && s.groupErr.None? ==> GivesReference(c, s))
  {
    hide Steady, After, StartOk, Active, Reference, LaterWait, NoneRefused;
    ScheduleOnTrack(c, steps);
    ScheduleBlamed(c, steps);
    var s := After(c, steps).value;
    forall i: nat | i < |c.analyzers| && Untroubled(c, s, i)
      ensures s.slots[i] == Some(Reference(c.analyzers, i)) && Reference(c.analyzers, i).err.None?
    {
      assert TaskOk(c, s, i) && OnTrack(c, s, i);
    }
    hide TaskOk, OnTrack, Inv;
    assert s.firstErr.None? ==> forall i: nat :: i < |c.analyzers| && !c.analyzers[i].scanner ==> Untroubled(c, s, i);
    assert s.firstErr.None? && s.groupErr.None? ==> forall i: nat :: i < |c.analyzers| ==> Untroubled(c, s, i);
  }
}
