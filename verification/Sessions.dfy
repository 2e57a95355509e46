/** The session that a run reports. */
module Sessions {
  import opened Bytes
  import opened FailFast
  import opened Pipeline
  import opened Schedules

  // ---- collecting results ----

  datatype Session = Session(tools: seq<Tool>, findings: seq<Finding>, failedTools: seq<string>,
      firstErr: Option<Failure>)

  /** The session of the filled slots, in registration order; a slot without a tool name does not count. */
  function Collected(slots: seq<Option<Run>>): Session {
    if slots == [] then Session([], [], [], None)
    else
      var n := |slots| - 1;
      var before := Collected(slots[..n]);
      if slots[n].None? || slots[n].value.name == "" then before
      else
        var run := slots[n].value;
        Session(before.tools + [run.tool], before.findings + run.findings,
                before.failedTools + (if run.err.Some? then [run.name] else []),
                if before.firstErr.None? then run.err else before.firstErr)
  }

  method Collect(slots: seq<Option<Run>>) returns (session: Session)
    ensures session == Collected(slots)
  {
    var tools, findings, failedTools := [], [], [];
    var firstErr: Option<Failure> := None;
    for k := 0 to |slots|
      invariant Session(tools, findings, failedTools, firstErr) == Collected(slots[..k])
    {
      assert slots[..k + 1][..k] == slots[..k];
      if slots[k].Some? && slots[k].value.name != "" {
        var run := slots[k].value;
        tools, findings := tools + [run.tool], findings + run.findings;
        if run.err.Some? {
          failedTools := failedTools + [run.name];
          if firstErr.None? { firstErr := run.err; }
        }
      }
    }
    assert slots[..|slots|] == slots;
    session := Session(tools, findings, failedTools, firstErr);
  }

  datatype SessionStatus = Failed | Partial | Completed
  datatype RunError = CancelledRun | Aborted(Failure) | FailedTools(Failure)
  datatype Report = Report(session: Session, firstErr: Option<Failure>, status: SessionStatus,
      returned: Option<RunError>)

  function OrElse(a: Option<Failure>, b: Option<Failure>): Option<Failure> { if a.Some? then a else b }

  /** What the run reports in a finished state. */
  function ReportOf(c: Config, s: State): Report {
    var session := Collected(s.slots);
    var firstErr := OrElse(session.firstErr, OrElse(s.firstErr, s.groupErr));
    var status := if s.cancelled || (firstErr.Some? && c.failFast) then Failed
                  else if session.failedTools != [] then Partial else Completed;
    var returned := if s.cancelled then Some(CancelledRun)
                    else if firstErr.Some? && c.failFast then Some(Aborted(firstErr.value))
                    else if firstErr.Some? && c.strict then Some(FailedTools(firstErr.value))
                    else None;
    Report(session, firstErr, status, returned)
  }

  /** A steady configuration and one that differs from it only by fewer workers report the same on every two
      undisturbed schedules. */
  lemma ScheduleIndependence(c: Config, a: seq<Step>, d: Config, b: seq<Step>)
    requires Steady(c) && d == c.(maxConcurrency := d.maxConcurrency) && Limit(d) <= Limit(c)
    requires !c.failFast && Undisturbed(c, a) && Undisturbed(d, b)
    ensures ReportOf(c, After(c, a).value) == ReportOf(d, After(d, b).value)
  {
    hide Collected, Steady, After, Reference;
    FewerWorkersStaySteady(c, d);
    SteadyGivesReference(c, a);
    SteadyGivesReference(d, b);
    NoGroupErrors(c, a);
    NoGroupErrors(d, b);
    assert After(c, a).value.slots == After(d, b).value.slots;
  }

  lemma NoGroupErrors(c: Config, steps: seq<Step>)
    requires !c.failFast && Undisturbed(c, steps)
    ensures After(c, steps).value.firstErr.None? && After(c, steps).value.groupErr.None?
  {
    hide After, TaskOk, StartOk, Active;
    ScheduleInv(c, steps);
  }

  /** A slot that is reported as failed. */
  predicate NamedFailure(slot: Option<Run>) { slot.Some? && slot.value.name != "" && slot.value.err.Some? }

  lemma {:induction false} CollectedErrors(slots: seq<Option<Run>>)
    ensures var session := Collected(slots);
            && (session.firstErr.Some? <==> session.failedTools != [])
            && (session.firstErr.Some? <==> exists i :: 0 <= i < |slots| && NamedFailure(slots[i]))
            && (session.firstErr.Some? ==>
                  exists i :: 0 <= i < |slots| && slots[i].Some? && slots[i].value.err == session.firstErr)
  {
    if slots != [] {
      var n := |slots| - 1;
      CollectedErrors(slots[..n]);
      var before := Collected(slots[..n]);
      if before.firstErr.Some? {
        var i :| 0 <= i < n && NamedFailure(slots[..n][i]);
        assert slots[i] == slots[..n][i];
      }
      if i :| 0 <= i < |slots| && NamedFailure(slots[i]) {
        if i < n { assert slots[..n][i] == slots[i]; }
      }
      if before.firstErr.Some? {
        var i :| 0 <= i < n && slots[..n][i].Some? && slots[..n][i].value.err == before.firstErr;
        assert slots[i] == slots[..n][i];
      }
    }
  }

  /** Without fail-fast an undisturbed run is partial exactly if some slot holds an error under a tool name, and
      completed otherwise. */
  lemma PartialExactly(c: Config, steps: seq<Step>)
    requires !c.failFast && Undisturbed(c, steps)
    ensures var s := After(c, steps).value;
            ReportOf(c, s).status
            == if exists i :: 0 <= i < |s.slots| && NamedFailure(s.slots[i]) then Partial else Completed
  {
    hide After, Collected;
    NoGroupErrors(c, steps);
    CollectedErrors(After(c, steps).value.slots);
  }

  /** With fail-fast an undisturbed run of a steady configuration fails exactly if some analyzer
      of either phase fails in the reference. */
  lemma FailFastAborts(c: Config, steps: seq<Step>)
    requires c.failFast && Steady(c) && Undisturbed(c, steps)
    ensures var report := ReportOf(c, After(c, steps).value);
            && (report.status == Failed <==> PhaseFails(c, false) || PhaseFails(c, true))
            && (report.status == Failed <==> report.returned.Some?)
  {
    hide Steady, After, Collected, Reference;
    FailFastVerdict(c, steps);
    var s := After(c, steps).value;
    CollectedErrors(s.slots);
  }

  // ---- what a slot can hold ----

  /** A view that analyzer i can have at all: not of its own files, and in the first phase of no scanner's. */
  predicate Possible(team: Team, i: nat, view: View)
    requires i < |team|
  {
    && |view| == |team| && view[i] == Absent
    && forall k :: 0 <= k < |team| && team[k].scanner && !team[i].scanner ==> view[k] == Absent
  }

  ghost predicate IsResult(team: Team, i: nat, run: Run)
    requires i < |team|
  {
    exists view :: Possible(team, i, view) && run == ResultOf(team[i], view)
  }

  /** Whatever task i has produced is something its analyzer returns over some view. */
  ghost predicate HoldsResult(c: Config, s: State, i: nat)
    requires Sized(c, s) && i < |s.status|
  {
    && (s.status[i].Ran? || s.status[i].Written? ==> IsResult(c.analyzers, i, s.status[i].run))
    && (s.slots[i].Some? ==> IsResult(c.analyzers, i, s.slots[i].value))
  }

  lemma VisibleIsPossible(c: Config, s: State, i: nat, view: View)
    requires Inv(c, s) && i < |s.status| && s.status[i].Running? && Visible(s, i, s.status[i].start, view)
    ensures Possible(c.analyzers, i, view)
  {
    hide StartOk, NoneRefused, Active, ResultOf, Directory;
    AtWork(c, s, i);
    forall k | 0 <= k < |view| && c.analyzers[k].scanner && !c.analyzers[i].scanner ensures view[k] == Absent {
      assert TaskOk(c, s, k);
    }
  }

  lemma StepHoldsResult(c: Config, s: State, step: Step, i: nat)
    requires Inv(c, s) && Enabled(c, s, step) && i < |s.status| && HoldsResult(c, s, i) && !Interrupted(s)
    ensures HoldsResult(c, Apply(c, s, step), i)
  {
    hide TaskOk, StartOk, NoneRefused, Active, Visible, ResultOf, Directory, Possible;
    if step.Finish? && step.i == i {
      VisibleIsPossible(c, s, i, step.view);
      assert IsResult(c.analyzers, i, step.run);
    }
    hide IsResult;
  }

  /** Without fail-fast and cancellation every filled slot holds what its analyzer returns over some view. */
  lemma {:induction false} SlotsAreResults(c: Config, steps: seq<Step>, i: nat)
    requires !c.failFast && After(c, steps).Some? && !After(c, steps).value.cancelled && i < |c.analyzers|
    ensures var s := After(c, steps).value; |s.status| == |s.slots| == |c.analyzers| && HoldsResult(c, s, i)
  {
    hide Enabled, Apply, TaskOk, StartOk, Active, IsResult;
    if steps != [] {
      var prefix := steps[..|steps| - 1];
      ScheduleInv(c, prefix);
      StepKeepsSlots(c, After(c, prefix).value, steps[|steps| - 1]);
      SlotsAreResults(c, prefix, i);
      StepHoldsResult(c, After(c, prefix).value, steps[|steps| - 1], i);
    }
  }

  // ---- failures without a name ----

  /** All of the analyzer's failures come without a tool name. */
  ghost predicate FailsNameless(a: Analyzer) {
    forall view :: ResultOf(a, view).err.Some? && ResultOf(a, view).name == ""
  }

  /** An analyzer that fails without setting the tool name is not noticed: whatever it is registered with, the
      run reports the same as without it, and alone it completes. */
  lemma NamelessFailuresAreHidden(c: Config, steps: seq<Step>, i: nat)
    requires !c.failFast && Undisturbed(c, steps) && i < |c.analyzers| && FailsNameless(c.analyzers[i])
    ensures var slots := After(c, steps).value.slots;
            |slots| == |c.analyzers| && slots[i].Some? && slots[i].value.err.Some?
            && Collected(slots) == Collected(slots[..i] + slots[i + 1..])
    ensures |c.analyzers| == 1 ==> ReportOf(c, After(c, steps).value).status == Completed
  {
    hide After;
    EachRunsOnce(c, steps, i);
    SlotsAreResults(c, steps, i);
    NoGroupErrors(c, steps);
    var slots := After(c, steps).value.slots;
    NamelessSlot(slots, i);
    if |slots| == 1 { assert slots[..i] + slots[i + 1..] == []; }
  }

  /** Such an analyzer and a run in which its failure is lost. */
  lemma FailureWithoutNameIsLost() returns (c: Config, steps: seq<Step>)
    ensures |c.analyzers| == 1 && FailsNameless(c.analyzers[0])
    ensures !c.failFast && Undisturbed(c, steps) && ReportOf(c, After(c, steps).value).status == Completed
  {
    var a := Analyzer("foreign", false, (view: View) => Returned("", 0, [], 0, Some(1)));
    c := Config([a], 0, false, false);
    steps := ReferenceOccurs(c);
    NamelessFailuresAreHidden(c, steps, 0);
  }

  lemma {:induction false} NamelessSlot(slots: seq<Option<Run>>, i: nat)
    requires i < |slots| && slots[i].Some? && slots[i].value.name == ""
    ensures Collected(slots) == Collected(slots[..i] + slots[i + 1..])
  {
    var n := |slots| - 1;
    var rest := slots[..i] + slots[i + 1..];
    if i < n {
      NamelessSlot(slots[..n], i);
      assert slots[..n][..i] + slots[..n][i + 1..] == rest[..n - 1];
      assert rest[n - 1] == slots[n];
    } else {
      assert rest == slots[..n];
    }
  }
}
