/** When the interleaving of analyzers matters.

    The reference is the run with one worker: analyzers one after the other in registration order, the
    first phase before the scanners. `Steady` says of the analyzers alone that none of them reacts to how
    far its own group has come; it is exactly the condition under which every schedule gives the reference.
 */
module Schedules {
  import opened Bytes
  import opened Pipeline

  type Team = seq<Analyzer>

  predicate SameGroup(team: Team, i: nat, j: nat)
    requires i < |team| && j < |team|
  {
    team[i].scanner == team[j].scanner
  }

  // ---- the reference ----

  /** With one worker analyzer j is through before i begins. */
  predicate Precedes(team: Team, j: nat, i: nat)
    requires i < |team| && j < |team|
  {
    if SameGroup(team, i, j) then j < i else team[i].scanner
  }

  /** What analyzer i returns with one worker. */
  function Reference(team: Team, i: nat): Run
    requires i < |team|
    decreases team[i].scanner, i, 1
  {
    ResultOf(team[i], ReferenceView(team, i))
  }

  /** What it sees then: all of those before it, and nothing of the others. */
  function ReferenceView(team: Team, i: nat): (v: View)
    requires i < |team|
    ensures |v| == |team|
    decreases team[i].scanner, i, 0
  {
    seq(|team|, j requires 0 <= j < |team| => if Precedes(team, j, i) then Whole(Reference(team, j).files) else Absent)
  }

  // ---- steadiness ----

  /** How many of the analyzers lo..hi of one group are in a set. */
  function CountIn(team: Team, scanner: bool, open: set<nat>, lo: nat, hi: nat): nat
    requires lo <= hi <= |team|
    decreases hi - lo
  {
    if lo == hi then 0
    else CountIn(team, scanner, open, lo, hi - 1) + if team[hi - 1].scanner == scanner && hi - 1 in open then 1 else 0
  }

  function NotWhole(v: View): set<nat> { set j: nat | j < |v| && !v[j].Whole? }

  /** A view of i on the way to the reference: its own group may be absent, torn or whole, but of those
      registered before it fewer than the number of workers are unfinished, and a single worker leaves
      those after it absent; the other group is as in the reference. */
  predicate Near(team: Team, workers: nat, i: nat, v: View)
    requires i < |team|
  {
    && |v| == |team| && v[i] == Absent
    && (forall j :: 0 <= j < |team| && j != i ==>
          if SameGroup(team, i, j) then v[j].Whole? ==> v[j] == Whole(Reference(team, j).files)
          else v[j] == ReferenceView(team, i)[j])
    && CountIn(team, team[i].scanner, NotWhole(v), 0, i) < workers
    && (workers == 1 ==> forall j :: i < j < |team| && SameGroup(team, i, j) ==> v[j] == Absent)
  }

  /** No analyzer reacts to how far its own group has come. */
  ghost predicate Steady(c: Config) {
    forall i: nat, v: View :: i < |c.analyzers| && Near(c.analyzers, Limit(c), i, v) ==>
        ResultOf(c.analyzers[i], v) == Reference(c.analyzers, i)
  }

  lemma CountGrows(team: Team, scanner: bool, a: set<nat>, b: set<nat>, lo: nat, hi: nat)
    requires lo <= hi <= |team| && forall k :: lo <= k < hi && team[k].scanner == scanner && k in a ==> k in b
    ensures CountIn(team, scanner, a, lo, hi) <= CountIn(team, scanner, b, lo, hi)
    decreases hi - lo
  {
    if lo < hi { CountGrows(team, scanner, a, b, lo, hi - 1); }
  }

  lemma CountNothing(team: Team, scanner: bool, a: set<nat>, lo: nat, hi: nat)
    requires lo <= hi <= |team| && forall k :: lo <= k < hi && team[k].scanner == scanner ==> k !in a
    ensures CountIn(team, scanner, a, lo, hi) == 0
    decreases hi - lo
  {
    if lo < hi { CountNothing(team, scanner, a, lo, hi - 1); }
  }

  /** With one worker every configuration is steady: the only near view is the reference's. */
  lemma OneWorkerIsSteady(c: Config)
    requires Limit(c) == 1
    ensures Steady(c)
  {
    var team := c.analyzers;
    forall i: nat, v: View | i < |team| && Near(team, 1, i, v) ensures ResultOf(team[i], v) == Reference(team, i) {
      forall j: nat | j < |team| ensures v[j] == ReferenceView(team, i)[j] {
        if SameGroup(team, i, j) && j < i { OneMissing(team, team[i].scanner, NotWhole(v), 0, i, j); }
      }
      assert v == ReferenceView(team, i);
    }
  }

  lemma OneMissing(team: Team, scanner: bool, open: set<nat>, lo: nat, hi: nat, j: nat)
    requires lo <= j < hi <= |team| && CountIn(team, scanner, open, lo, hi) == 0 && team[j].scanner == scanner
    ensures j !in open
    decreases hi - lo
  {
    if j < hi - 1 { OneMissing(team, scanner, open, lo, hi - 1, j); }
  }

  /** Fewer workers have fewer views to be steady over. */
  lemma FewerWorkersStaySteady(c: Config, d: Config)
    requires Steady(c) && d.analyzers == c.analyzers && Limit(d) <= Limit(c)
    ensures Steady(d)
  {
    var team := c.analyzers;
    forall i: nat, v: View | i < |team| && Near(team, Limit(d), i, v)
        ensures ResultOf(team[i], v) == Reference(team, i) {
      if Limit(d) == 1 { OneWorkerIsSteady(d); } else { assert Near(team, Limit(c), i, v); }
    }
  }

  // ---- steady teams give the reference ----

  /** The error a phase has met so far. */
  function PhaseErr(s: State, scanner: bool): Option<Failure> {
    if scanner then (if s.stage == First then None else s.groupErr) else if s.stage == First then s.groupErr
    else s.firstErr
  }

  /** Nothing has gone wrong in the phase of an analyzer, nor before it. */
  predicate Untroubled(c: Config, s: State, i: nat)
    requires i < |c.analyzers|
  {
    !s.cancelled && PhaseErr(s, c.analyzers[i].scanner).None? && PhaseErr(s, false).None?
  }

  function Unfinished(start: seq<Progress>): set<nat> { set j: nat | j < |start| && !start[j].Finished? }

  /** A task on the way to the reference. */
  predicate OnTrack(c: Config, s: State, i: nat)
    requires Sized(c, s) && i < |s.status|
  {
    match s.status[i]
    case Running(start) =>
      && |start| == |c.analyzers| && CountIn(c.analyzers, c.analyzers[i].scanner, Unfinished(start), 0, i) < Limit(c)
      && forall j :: 0 <= j < |start| && c.analyzers[i].scanner && !c.analyzers[j].scanner ==>
           start[j] == Finished(Reference(c.analyzers, j).files)
    case Ran(run) => run == Reference(c.analyzers, i)
    case Written(run) => run == Reference(c.analyzers, i)
    case Done => s.slots[i] == Some(Reference(c.analyzers, i)) && (c.failFast ==> Reference(c.analyzers, i).err.None?)
    case _ => true
  }

  /** A single worker has not come to those after the one at work. */
  predicate LaterWait(c: Config, s: State)
    requires Sized(c, s)
  {
    Limit(c) == 1 ==>
      forall i, j :: 0 <= i < j < |s.status| && SameGroup(c.analyzers, i, j) && Holding(s.status[i]) ==>
          s.status[j].Waiting?
  }

  predicate AllOnTrack(c: Config, s: State) {
    Inv(c, s) && LaterWait(c, s) && forall i :: 0 <= i < |s.status| && Untroubled(c, s, i) ==> OnTrack(c, s, i)
  }

  lemma StepLaterWait(c: Config, s: State, step: Step)
    requires Inv(c, s) && LaterWait(c, s) && Enabled(c, s, step)
    ensures LaterWait(c, Apply(c, s, step))
  {
    hide StartOk, NoneRefused, Active, Visible, ResultOf, Directory, ProgressOf;
    var r := Apply(c, s, step);
    if Limit(c) == 1 {
      if step.Spawn? { NoneActive(s.status); }
      forall i, j | 0 <= i < j < |s.status| && SameGroup(c.analyzers, i, j) && Holding(r.status[i])
          ensures r.status[j].Waiting? {
        assert TaskOk(c, s, j);
        assert Holding(s.status[i]) || (step.Spawn? && i == s.next);
      }
    }
  }

  /** Trouble does not go away. */
  lemma StepUntroubled(c: Config, s: State, step: Step, i: nat)
    requires Inv(c, s) && Enabled(c, s, step) && i < |s.status| && Untroubled(c, Apply(c, s, step), i)
    ensures Untroubled(c, s, i)
  {
    hide TaskOk, StartOk, NoneRefused, Active, Visible, ResultOf, Directory;
  }

  /** The group of a spawned or running task is the current one. */
  lemma AtWork(c: Config, s: State, i: nat)
    requires Inv(c, s) && i < |s.status| && Holding(s.status[i])
    ensures InGroup(c, s.stage, i) && i < s.next
  {
    hide StartOk, NoneRefused, Active;
    assert TaskOk(c, s, i);
  }

  function HoldingIn(status: seq<Status>): set<nat> { set j: nat | j < |status| && Holding(status[j]) }

  lemma {:induction false} CountHolding(team: Team, scanner: bool, status: seq<Status>, hi: nat)
    requires hi <= |team| == |status|
    ensures CountIn(team, scanner, HoldingIn(status), 0, hi) <= Active(status[..hi])
  {
    if hi > 0 {
      CountHolding(team, scanner, status, hi - 1);
      ActiveSplit(status[..hi - 1], [status[hi - 1]]);
      assert status[..hi] == status[..hi - 1] + [status[hi - 1]];
    }
  }

  lemma {:induction false} ActiveSplit(a: seq<Status>, b: seq<Status>)
    ensures Active(a + b) == Active(a) + Active(b)
  {
    if a == [] {
      assert a + b == b;
    } else {
      assert (a + b)[1..] == a[1..] + b;
      ActiveSplit(a[1..], b);
    }
  }

  lemma OthersActive(status: seq<Status>, i: nat)
    requires i < |status| && Holding(status[i])
    ensures Active(status[..i]) < Active(status)
  {
    ActiveSplit(status[..i], status[i..]);
    assert status == status[..i] + status[i..];
    assert status[i..][0] == status[i];
  }

  /** At its beginning a task finds fewer unfinished predecessors than there are workers. */
  lemma BeginsOnTrack(c: Config, s: State, i: nat)
    requires AllOnTrack(c, s) && Enabled(c, s, Begin(i)) && Untroubled(c, s, i)
    ensures OnTrack(c, Apply(c, s, Begin(i)), i)
  {
    var team, start := c.analyzers, Directory(s);
    hide StartOk, NoneRefused, Active, Visible, ResultOf, Directory, Reference, LaterWait;
    AtWork(c, s, i);
    forall j: nat | j < i && team[j].scanner == team[i].scanner && j in Unfinished(start)
        ensures j in HoldingIn(s.status) {
      assert TaskOk(c, s, j);
      assert Untroubled(c, s, j);
    }
    CountGrows(team, team[i].scanner, Unfinished(start), HoldingIn(s.status), 0, i);
    CountHolding(team, team[i].scanner, s.status, i);
    OthersActive(s.status, i);
    forall j: nat | j < |start| && team[i].scanner && !team[j].scanner
        ensures start[j] == Finished(Reference(team, j).files) {
      FirstPhaseDone(c, s, i, j);
      assert Untroubled(c, s, j);
    }
  }

  /** Every view an analyzer can have on the way to the reference is near it. */
  lemma ViewIsNear(c: Config, s: State, i: nat, view: View)
    requires AllOnTrack(c, s) && i < |s.status| && Untroubled(c, s, i) && s.status[i].Running?
    requires Visible(s, i, s.status[i].start, view)
    ensures Near(c.analyzers, Limit(c), i, view)
  {
    var team, start := c.analyzers, s.status[i].start;
    hide NoneRefused, Active, ResultOf, Directory, Reference, LaterWait;
    AtWork(c, s, i);
    assert OnTrack(c, s, i) && StartOk(c, s, i);
    forall j: nat | j < |team| && j != i
      ensures if SameGroup(team, i, j) then view[j].Whole? ==> view[j] == Whole(Reference(team, j).files)
              else view[j] == ReferenceView(team, i)[j]
    {
      SeenOnTrack(c, s, i, view, j);
    }
    forall j: nat | j < i && j in NotWhole(view) ensures j in Unfinished(start) {
      assert Grew(start[j], ProgressAt(s, j));
    }
    CountGrows(team, team[i].scanner, NotWhole(view), Unfinished(start), 0, i);
    if Limit(c) == 1 {
      forall j | i < j < |team| && SameGroup(team, i, j) ensures view[j] == Absent { LaterAbsent(c, s, i, view, j); }
    }
  }

  lemma LaterAbsent(c: Config, s: State, i: nat, view: View, j: nat)
    requires Inv(c, s) && LaterWait(c, s) && Limit(c) == 1 && i < j < |s.status| && SameGroup(c.analyzers, i, j)
    requires s.status[i].Running? && Visible(s, i, s.status[i].start, view)
    ensures view[j] == Absent
  {
    hide NoneRefused, Active, ResultOf, Directory, TaskOk;
    assert s.status[j].Waiting?;
  }

  lemma SeenOnTrack(c: Config, s: State, i: nat, view: View, j: nat)
    requires AllOnTrack(c, s) && i < |s.status| && Untroubled(c, s, i) && j < |s.status| && j != i &&
             s.status[i].Running?
    requires Visible(s, i, s.status[i].start, view)
    ensures if SameGroup(c.analyzers, i, j) then view[j].Whole? ==> view[j] == Whole(Reference(c.analyzers, j).files)
            else view[j] == ReferenceView(c.analyzers, i)[j]
  {
    hide NoneRefused, Active, ResultOf, Directory, Reference, LaterWait;
    AtWork(c, s, i);
    assert OnTrack(c, s, i) && StartOk(c, s, i) && TaskOk(c, s, j);
    if SameGroup(c.analyzers, i, j) { assert Untroubled(c, s, j); }
  }

  lemma StepOnTrack(c: Config, s: State, step: Step, i: nat)
    requires Steady(c) && AllOnTrack(c, s) && Enabled(c, s, step) && i < |s.status| &&
             Untroubled(c, Apply(c, s, step), i)
    ensures OnTrack(c, Apply(c, s, step), i)
  {
    StepUntroubled(c, s, step, i);
    assert OnTrack(c, s, i) && TaskOk(c, s, i);
    assert s.status[i].Written? ==> s.slots[i] == Some(s.status[i].run);
    hide TaskOk, StartOk, NoneRefused, Active, Visible, ResultOf, Directory, Reference, LaterWait, Near;
    if step == Begin(i) {
      BeginsOnTrack(c, s, i);
    } else if step.Finish? && step.i == i {
      AtWork(c, s, i);
      ViewIsNear(c, s, i, step.view);
    }
  }

  lemma {:induction false} ScheduleOnTrack(c: Config, steps: seq<Step>)
    requires Steady(c) && After(c, steps).Some?
    ensures AllOnTrack(c, After(c, steps).value)
  {
    hide Steady, Enabled, Apply, OnTrack, Untroubled;
    if steps == [] {
      InitInv(c);
      forall i: nat | i < |c.analyzers| ensures OnTrack(c, Init(c), i) { InitOnTrack(c, i); }
    } else {
      var prefix, step := steps[..|steps| - 1], steps[|steps| - 1];
      ScheduleOnTrack(c, prefix);
      var s := After(c, prefix).value;
      StepInv(c, s, step);
      StepLaterWait(c, s, step);
      forall i: nat | i < |s.status| && Untroubled(c, Apply(c, s, step), i) ensures OnTrack(c, Apply(c, s, step), i) {
        StepOnTrack(c, s, step, i);
      }
    }
  }

  lemma InitOnTrack(c: Config, i: nat)
    requires i < |c.analyzers|
    ensures OnTrack(c, Init(c), i)
  {
  }

  /** Every analyzer's slot holds what it returns with one worker. */
  predicate GivesReference(c: Config, s: State) {
    |s.slots| == |c.analyzers| && forall i :: 0 <= i < |s.slots| ==> s.slots[i] == Some(Reference(c.analyzers, i))
  }

  /** A schedule that came to its end undisturbed. */
  predicate Undisturbed(c: Config, steps: seq<Step>) {
    Complete(c, steps) && !After(c, steps).value.cancelled
  }

  /** A steady configuration gives the reference, whatever the schedule. */
  lemma SteadyGivesReference(c: Config, steps: seq<Step>)
    requires Steady(c) && !c.failFast && Undisturbed(c, steps)
    ensures GivesReference(c, After(c, steps).value)
  {
    hide Steady, After, StartOk, Active, Reference, LaterWait;
    ScheduleOnTrack(c, steps);
    var s := After(c, steps).value;
    forall i: nat | i < |s.slots| ensures s.slots[i] == Some(Reference(c.analyzers, i)) {
      assert TaskOk(c, s, i);
      assert Untroubled(c, s, i);
    }
  }

  // ---- and only they do ----

  /** All undisturbed schedules give the reference. */
  ghost predicate Agreeing(c: Config) {
    forall steps :: Undisturbed(c, steps) ==> GivesReference(c, After(c, steps).value)
  }

  lemma Do(c: Config, steps: seq<Step>, step: Step) returns (longer: seq<Step>)
    requires After(c, steps).Some? && Sized(c, After(c, steps).value) && Enabled(c, After(c, steps).value, step)
    ensures After(c, longer) == Some(Apply(c, After(c, steps).value, step)) && longer == steps + [step]
  {
    hide Enabled, Apply;
    longer := steps + [step];
    assert longer[..|longer| - 1] == steps;
  }

  /** Filled slots stay, and without the outside world nothing is cancelled. */
  lemma {:induction false} SlotsStay(c: Config, steps: seq<Step>, more: seq<Step>)
    requires After(c, steps + more).Some? && forall step :: step in more ==> !step.Cancel?
    ensures After(c, steps).Some?
    ensures var s, r := After(c, steps).value, After(c, steps + more).value;
            && |s.slots| == |r.slots| == |c.analyzers| && r.cancelled == s.cancelled
            && forall k :: 0 <= k < |s.slots| && s.slots[k].Some? ==> r.slots[k] == s.slots[k]
    decreases |more|
  {
    hide Enabled, Apply, Inv;
    if more == [] {
      assert steps + more == steps;
      ScheduleInv(c, steps);
      SizeOf(c, After(c, steps).value);
    } else {
      var n := |more| - 1;
      assert (steps + more)[..|steps + more| - 1] == steps + more[..n];
      SlotsStay(c, steps, more[..n]);
      ScheduleInv(c, steps + more[..n]);
      StepKeepsSlots(c, After(c, steps + more[..n]).value, more[n]);
    }
  }

  lemma SizeOf(c: Config, s: State)
    requires Inv(c, s)
    ensures Sized(c, s)
  {
  }

  lemma StepKeepsSlots(c: Config, s: State, step: Step)
    requires Inv(c, s) && Enabled(c, s, step)
    ensures var r := Apply(c, s, step);
            && |r.slots| == |s.slots| && r.cancelled == (s.cancelled || step.Cancel?)
            && forall k :: 0 <= k < |s.slots| && s.slots[k].Some? ==> r.slots[k] == s.slots[k]
  {
    hide StartOk, NoneRefused, Active, Visible, ResultOf, Directory;
    if step.Write? { assert TaskOk(c, s, step.i); }
    hide TaskOk;
  }

  /** If all schedules agree, then every slot filled on the way already holds the reference. */
  lemma FilledIsReference(c: Config, steps: seq<Step>, j: nat)
    requires Agreeing(c) && After(c, steps).Some? && !After(c, steps).value.cancelled
    requires j < |After(c, steps).value.slots| && After(c, steps).value.slots[j].Some?
    ensures j < |c.analyzers| && After(c, steps).value.slots[j] == Some(Reference(c.analyzers, j))
  {
    hide After, Reference;
    var more := EveryScheduleCompletes(c, steps);
    SlotsStay(c, steps, more);
    assert Undisturbed(c, steps + more);
  }

  /** An undisturbed state without fail-fast, from which every enabled step may follow. */
  predicate Stands(c: Config, steps: seq<Step>, s: State) {
    After(c, steps) == Some(s) && !c.failFast && !s.cancelled && Inv(c, s)
  }

  /** Lets a spawned task run, write and return without anybody else moving. */
  lemma RunThrough(c: Config, steps: seq<Step>, s: State, j: nat) returns (longer: seq<Step>, r: State)
    requires Stands(c, steps, s) && j < |s.status| && s.status[j] == Spawned
    ensures Stands(c, longer, r) && r.slots[j].Some? &&
            r == s.(status := s.status[j := Done], slots := s.slots[j := r.slots[j]])
  {
    hide TaskOk, StartOk, Active, Visible, ResultOf, Directory, After;
    longer, r := Then(c, steps, s, Begin(j));
    var last := LastLook(c, r, j);
    longer, r := Then(c, longer, r, last);
    longer, r := Then(c, longer, r, Write(j));
    longer, r := Then(c, longer, r, Return(j));
  }

  lemma Then(c: Config, steps: seq<Step>, s: State, step: Step) returns (longer: seq<Step>, r: State)
    requires Stands(c, steps, s) && Enabled(c, s, step) && !step.Cancel?
    ensures Stands(c, longer, r) && r == Apply(c, s, step)
  {
    longer := Do(c, steps, step);
    StepInv(c, s, step);
    StepKeepsSlots(c, s, step);
    r := Apply(c, s, step);
    hide Apply, Enabled, Inv;
  }

  /** From s to r the main loop went from lo to hi: the tasks of the current group were spawned, and
      unless they were to be kept, run to their end. */
  predicate Handled(c: Config, s: State, r: State, lo: nat, hi: nat, keep: set<nat>)
    requires Sized(c, s) && Sized(c, r)
  {
    forall k: nat :: k < |s.status| ==>
      if lo <= k < hi && InGroup(c, s.stage, k) then
        if k in keep then r.status[k] == Spawned && r.slots[k] == s.slots[k]
        else r.status[k] == Done && r.slots[k].Some?
      else r.status[k] == s.status[k] && r.slots[k] == s.slots[k]
  }

  lemma Proceed(c: Config, steps: seq<Step>, s: State, goal: nat, keep: set<nat>) returns (longer: seq<Step>, r: State)
    requires Stands(c, steps, s) && s.stage != Over && s.next <= goal <= |c.analyzers|
    requires Active(s.status) + CountIn(c.analyzers, s.stage == Second, keep, s.next, goal) < Limit(c)
    ensures Stands(c, longer, r) && Sized(c, s) && Sized(c, r) && r.stage == s.stage && r.next == goal
    ensures Handled(c, s, r, s.next, goal, keep)
    ensures Active(r.status) == Active(s.status) + CountIn(c.analyzers, s.stage == Second, keep, s.next, goal)
    decreases goal
  {
    if goal == s.next {
      longer, r := steps, s;
      SizeOf(c, s);
    } else {
      hide Inv, Active, Limit, ProgressOf, Handled, After, Stands;
      var k := goal - 1;
      var earlier, mid := Proceed(c, steps, s, k, keep);
      longer, r := Handle(c, earlier, mid, keep);
      HandledMore(c, s, mid, r, s.next, k, keep);
    }
  }

  lemma HandledMore(c: Config, s: State, mid: State, r: State, lo: nat, hi: nat, keep: set<nat>)
    requires Sized(c, s) && Sized(c, mid) && Sized(c, r) && mid.stage == s.stage && lo <= hi
    requires Handled(c, s, mid, lo, hi, keep) && Handled(c, mid, r, hi, hi + 1, keep)
    ensures Handled(c, s, r, lo, hi + 1, keep)
  {
  }

  /** One turn of the main loop. */
  lemma Handle(c: Config, steps: seq<Step>, s: State, keep: set<nat>) returns (longer: seq<Step>, r: State)
    requires Stands(c, steps, s) && s.stage != Over && s.next < |c.analyzers| && Active(s.status) < Limit(c)
    ensures Stands(c, longer, r) && Sized(c, s) && Sized(c, r) && r.stage == s.stage && r.next == s.next + 1
    ensures Handled(c, s, r, s.next, s.next + 1, keep)
    ensures Active(r.status) == Active(s.status) + if InGroup(c, s.stage, s.next) && s.next in keep then 1 else 0
  {
    hide StartOk, Active, Visible, ResultOf, Directory, After, NoneRefused;
    var k := s.next;
    if !InGroup(c, s.stage, k) {
      longer, r := Then(c, steps, s, Pass);
    } else {
      assert TaskOk(c, s, k);
      longer, r := Then(c, steps, s, Spawn);
      ActiveUpdate(s.status, k, Spawned);
      if k !in keep {
        ActiveUpdate(r.status, k, Done);
        longer, r := RunThrough(c, longer, r, k);
      }
    }
  }

  /** Runs the kept tasks among the first n to their end. */
  lemma Clear(c: Config, steps: seq<Step>, s: State, n: nat, keep: set<nat>) returns (longer: seq<Step>, r: State)
    requires Stands(c, steps, s) && n <= |s.status|
    requires forall k: nat :: k < n && k in keep ==> s.status[k] == Spawned
    ensures Stands(c, longer, r) && Sized(c, s) && Sized(c, r) && r.stage == s.stage && r.next == s.next
    ensures forall k: nat :: k < |s.status| ==>
              if k < n && k in keep then r.status[k] == Done && r.slots[k].Some?
              else r.status[k] == s.status[k] && r.slots[k] == s.slots[k]
    ensures Active(r.status) <= Active(s.status)
    decreases n
  {
    if n == 0 {
      longer, r := steps, s;
      SizeOf(c, s);
    } else {
      longer, r := Clear(c, steps, s, n - 1, keep);
      if n - 1 in keep {
        ActiveUpdate(r.status, n - 1, Done);
        longer, r := RunThrough(c, longer, r, n - 1);
      }
      hide Inv, Active, After;
    }
  }

  /** A state in which the group of analyzer i is about to be spawned, everything before it through. */
  predicate GroupAhead(c: Config, s: State, i: nat)
    requires Sized(c, s) && i < |s.status|
  {
    && InGroup(c, s.stage, i) && s.next == 0 && Active(s.status) == 0
    && forall k: nat :: k < |s.status| ==>
         if c.analyzers[i].scanner && !c.analyzers[k].scanner then s.status[k] == Done && s.slots[k].Some?
         else s.status[k] == Waiting && s.slots[k] == None
  }

  lemma ReachGroup(c: Config, i: nat) returns (steps: seq<Step>, s: State)
    requires !c.failFast && i < |c.analyzers|
    ensures Stands(c, steps, s) && Sized(c, s) && GroupAhead(c, s, i)
  {
    steps, s := [], Init(c);
    InitInv(c);
    AllWaiting(|c.analyzers|);
    assert s.status == seq(|c.analyzers|, _ => Waiting);
    if c.analyzers[i].scanner {
      var n := |c.analyzers|;
      CountNothing(c.analyzers, false, {}, 0, n);
      var r;
      steps, r := Proceed(c, steps, s, n, {});
      assert forall k: nat :: k < n && !c.analyzers[k].scanner ==> InGroup(c, s.stage, k);
      hide Active, Inv, After;
      steps, s := Then(c, steps, r, Join);
    }
  }

  /** The predecessors that a view does not show whole. */
  function Open(team: Team, i: nat, v: View): set<nat>
    requires i < |team| == |v|
  {
    set j: nat | j < i && SameGroup(team, i, j) && !v[j].Whole?
  }

  /** Where analyzer k stands just before i is spawned: predecessors that the view shows whole are through, the
      others are spawned. */
  predicate Prepared(c: Config, s: State, i: nat, v: View, k: nat)
    requires Sized(c, s) && i < |s.status| == |v| && k < |s.status|
  {
    if (c.analyzers[i].scanner && !c.analyzers[k].scanner) ||
        (SameGroup(c.analyzers, i, k) && k < i && v[k].Whole?) then
      s.status[k] == Done && s.slots[k].Some?
    else if SameGroup(c.analyzers, i, k) && k < i then s.status[k] == Spawned && s.slots[k] == None
    else s.status[k] == Waiting && s.slots[k] == None
  }

  lemma Prepare(c: Config, i: nat, v: View) returns (steps: seq<Step>, s: State)
    requires !c.failFast && i < |c.analyzers| && Near(c.analyzers, Limit(c), i, v)
    ensures Stands(c, steps, s) && Sized(c, s) && InGroup(c, s.stage, i) && s.next == i && Active(s.status) < Limit(c)
    ensures forall k: nat :: k < |s.status| ==> Prepared(c, s, i, v, k)
  {
    var team := c.analyzers;
    var ahead;
    steps, ahead := ReachGroup(c, i);
    CountSame(team, team[i].scanner, NotWhole(v), Open(team, i, v), i);
    steps, s := Proceed(c, steps, ahead, i, Open(team, i, v));
    hide Active, Inv, Near, ResultOf, After, CountIn, Limit;
    forall k: nat | k < |s.status| ensures Prepared(c, s, i, v, k) {
      assert InGroup(c, ahead.stage, k) <==> SameGroup(team, i, k);
    }
  }

  /** Spawns the next task and lets it begin. */
  lemma SpawnAndBegin(c: Config, steps: seq<Step>, s: State, i: nat) returns (longer: seq<Step>, r: State)
    requires Stands(c, steps, s) && Sized(c, s) && i == s.next < |s.status| && InGroup(c, s.stage, i) &&
             s.status[i] == Waiting
    requires Active(s.status) < Limit(c)
    ensures Stands(c, longer, r) && Sized(c, r) && r.stage == s.stage && r.next == i + 1 && r.slots == s.slots
    ensures |r.status| == |s.status| && r.status[i].Running? && |r.status[i].start| == |s.status|
    ensures forall k: nat :: k < |s.status| && k != i ==>
            r.status[k] == s.status[k] && r.status[i].start[k] == ProgressAt(s, k)
  {
    hide StartOk, Active, Visible, ResultOf, TaskOk, After, ProgressOf;
    longer, r := Then(c, steps, s, Spawn);
    assert forall k: nat :: k < |s.status| && k != i ==> ProgressAt(r, k) == ProgressAt(s, k);
    longer, r := Then(c, longer, r, Begin(i));
    hide Inv;
  }

  /** Brings analyzer i to its beginning while the predecessors that its view does not show whole are still
      spawned; all of the others before it are through. */
  lemma BeginOver(c: Config, i: nat, v: View) returns (steps: seq<Step>, s: State)
    requires !c.failFast && i < |c.analyzers| && Near(c.analyzers, Limit(c), i, v)
    ensures Stands(c, steps, s) && Sized(c, s) && |v| == |s.status| && s.status[i].Running? && s.stage != Over &&
            s.next == i + 1
    ensures InGroup(c, s.stage, i) && |s.status[i].start| == |s.status|
    ensures forall k: nat :: k < |s.status| && k != i ==> Begun(c, s, i, v, k)
  {
    var r;
    steps, r := Prepare(c, i, v);
    hide Active, Inv, Near, ResultOf, After, Directory;
    assert Prepared(c, r, i, v, i);
    steps, s := SpawnAndBegin(c, steps, r, i);
    forall k: nat | k < |s.status| && k != i ensures Begun(c, s, i, v, k) {
      assert Prepared(c, r, i, v, k);
    }
  }

  /** Where analyzer k stands when i begins, and what i finds of it. */
  predicate Begun(c: Config, s: State, i: nat, v: View, k: nat)
    requires Sized(c, s) && i < |s.status| == |v| && k < |s.status| && s.status[i].Running? &&
             |s.status[i].start| == |s.status|
  {
    var start := s.status[i].start;
    if c.analyzers[i].scanner && !c.analyzers[k].scanner then
      s.status[k] == Done && s.slots[k].Some? && start[k] == Finished(s.slots[k].value.files)
    else if SameGroup(c.analyzers, i, k) && k < i && v[k].Whole? then
      s.status[k] == Done && s.slots[k].Some? && start[k] == Finished(s.slots[k].value.files)
    else if SameGroup(c.analyzers, i, k) && k < i then
        s.status[k] == Spawned && s.slots[k] == None && start[k] == Nothing
    else s.status[k] == Waiting && s.slots[k] == None && start[k] == Nothing
  }

  lemma CountSame(team: Team, scanner: bool, a: set<nat>, b: set<nat>, hi: nat)
    requires hi <= |team| && forall k: nat :: k < hi && team[k].scanner == scanner ==> (k in a <==> k in b)
    ensures CountIn(team, scanner, a, 0, hi) == CountIn(team, scanner, b, 0, hi)
  {
    CountGrows(team, scanner, a, b, 0, hi);
    CountGrows(team, scanner, b, a, 0, hi);
  }

  lemma {:induction false} AtMostOne(status: seq<Status>, i: nat)
    requires i < |status| && forall k: nat :: k < |status| && k != i ==> !Holding(status[k])
    ensures Active(status) <= 1
  {
    if i > 0 {
      assert !Holding(status[0]);
      AtMostOne(status[1..], i - 1);
    } else {
      NobodyHolds(status[1..]);
    }
  }

  lemma {:induction false} NobodyHolds(status: seq<Status>)
    requires forall k: nat :: k < |status| ==> !Holding(status[k])
    ensures Active(status) == 0
  {
    if status != [] { NobodyHolds(status[1..]); }
  }

  /** From s to r task k came to its end, or has not moved. */
  predicate Through(s: State, r: State, k: nat)
    requires k < |s.slots| == |r.slots| == |r.status|
  {
    r.status[k] == Done && r.slots[k].Some? && (s.slots[k].Some? ==> r.slots[k] == s.slots[k])
  }

  predicate Untouched(s: State, r: State, k: nat)
    requires k < |s.slots| == |r.slots| == |s.status| == |r.status|
  {
    r.status[k] == s.status[k] && r.slots[k] == s.slots[k]
  }

  /** Lets the predecessors that are still spawned run to the end while i is running. */
  lemma ClearOpen(c: Config, i: nat, v: View, steps: seq<Step>, s: State) returns (longer: seq<Step>, r: State)
    requires Stands(c, steps, s) && Sized(c, s) && i < |s.status| == |v| && s.status[i].Running? &&
             |s.status[i].start| == |s.status|
    requires forall k: nat :: k < |s.status| && k != i ==> Begun(c, s, i, v, k)
    ensures Stands(c, longer, r) && Sized(c, r) && r.stage == s.stage && r.next == s.next && r.status[i] == s.status[i]
    ensures forall k: nat :: k < |s.status| && k != i ==> !Holding(r.status[k])
    ensures forall k: nat :: k < |s.status| && k != i ==>
              if SameGroup(c.analyzers, i, k) && k < i then Through(s, r, k) else Untouched(s, r, k)
  {
    var open := Open(c.analyzers, i, v);
    hide Active, Inv, After;
    forall k: nat | k < i && k in open ensures s.status[k] == Spawned { assert Begun(c, s, i, v, k); }
    assert i !in open;
    longer, r := Clear(c, steps, s, i, open);
    forall k: nat | k < |s.status| && k != i
      ensures !Holding(r.status[k])
      ensures if SameGroup(c.analyzers, i, k) && k < i then Through(s, r, k) else Untouched(s, r, k)
    {
      assert Begun(c, s, i, v, k);
    }
  }

  /** Then lets everybody else run to the end while i is still running. */
  lemma OthersFinish(c: Config, i: nat, v: View, steps: seq<Step>, s: State) returns (longer: seq<Step>, r: State)
    requires Stands(c, steps, s) && Sized(c, s) && i < |s.status| == |v| && s.status[i].Running? &&
             |s.status[i].start| == |s.status|
    requires s.stage != Over && s.next == i + 1 && InGroup(c, s.stage, i) && Limit(c) > 1
    requires forall k: nat :: k < |s.status| && k != i ==> Begun(c, s, i, v, k)
    ensures Stands(c, longer, r) && Sized(c, r) && r.status[i] == s.status[i]
    ensures forall k: nat :: k < |s.status| && k != i ==>
              if SameGroup(c.analyzers, i, k) then Through(s, r, k) else Untouched(s, r, k)
  {
    var n := |c.analyzers|;
    var mid;
    longer, mid := ClearOpen(c, i, v, steps, s);
    AtMostOne(mid.status, i);
    CountNothing(c.analyzers, mid.stage == Second, {}, i + 1, n);
    longer, r := Proceed(c, longer, mid, n, {});
    hide Active, Inv, After, CountIn, Limit, Holding;
    forall k: nat | k < n && k != i
      ensures if SameGroup(c.analyzers, i, k) then Through(s, r, k) else Untouched(s, r, k)
    {
      assert Begun(c, s, i, v, k);
      assert InGroup(c, mid.stage, k) <==> SameGroup(c.analyzers, i, k);
    }
  }

  /** After that, i can have had the view. */
  lemma NearIsVisible(c: Config, i: nat, v: View, s: State, longer: seq<Step>, r: State)
    requires Agreeing(c) && i < |c.analyzers| && Near(c.analyzers, Limit(c), i, v)
    requires Sized(c, s) && s.status[i].Running? && |s.status[i].start| == |s.status|
    requires forall k: nat :: k < |s.status| && k != i ==> Begun(c, s, i, v, k)
    requires Stands(c, longer, r) && Sized(c, r) && r.status[i] == s.status[i]
    requires forall k: nat :: k < |s.status| && k != i ==>
               if SameGroup(c.analyzers, i, k) then Through(s, r, k) else Untouched(s, r, k)
    ensures Visible(r, i, s.status[i].start, v)
  {
    hide Agreeing, Reference, After, Inv, Limit, CountIn, NotWhole;
    forall k: nat | k < |v| && k != i ensures MaySee(s.status[i].start[k], ProgressAt(r, k), v[k]) {
      assert Begun(c, s, i, v, k);
      if r.slots[k].Some? { FilledIsReference(c, longer, k); }
    }
  }

  /** Over any near view there is a schedule in which i finishes over exactly this view. */
  lemma NearViewsOccur(c: Config, i: nat, v: View)
    requires Agreeing(c) && !c.failFast && Limit(c) > 1 && i < |c.analyzers| && Near(c.analyzers, Limit(c), i, v)
    ensures ResultOf(c.analyzers[i], v) == Reference(c.analyzers, i)
  {
    hide Near, Agreeing, Reference, ResultOf, After, Inv, Active, Limit, Visible;
    var steps, s := BeginOver(c, i, v);
    var longer, r := OthersFinish(c, i, v, steps, s);
    NearIsVisible(c, i, v, s, longer, r);
    longer, r := Then(c, longer, r, Finish(i, v, ResultOf(c.analyzers[i], v)));
    longer, r := Then(c, longer, r, Write(i));
    FilledIsReference(c, longer, i);
  }

  lemma AgreementNeedsSteadiness(c: Config)
    requires !c.failFast && Agreeing(c)
    ensures Steady(c)
  {
    if Limit(c) == 1 {
      OneWorkerIsSteady(c);
    } else {
      hide Near, Agreeing, Reference, ResultOf;
      forall i: nat, v: View | i < |c.analyzers| && Near(c.analyzers, Limit(c), i, v)
        ensures ResultOf(c.analyzers[i], v) == Reference(c.analyzers, i)
      {
        NearViewsOccur(c, i, v);
      }
    }
  }

  /** A schedule of few workers is one of more workers. */
  lemma {:induction false} MoreWorkers(c: Config, d: Config, steps: seq<Step>)
    requires d == c.(maxConcurrency := d.maxConcurrency) && Limit(c) <= Limit(d) && After(c, steps).Some?
    ensures After(d, steps) == After(c, steps)
  {
    hide Active, Visible, ResultOf, Directory;
    if steps != [] { MoreWorkers(c, d, steps[..|steps| - 1]); }
  }

  /** The reference is what some schedule gives, with any number of workers. */
  lemma ReferenceOccurs(c: Config) returns (steps: seq<Step>)
    requires !c.failFast
    ensures Undisturbed(c, steps) && GivesReference(c, After(c, steps).value)
  {
    var one := c.(maxConcurrency := 1);
    steps := EveryScheduleCompletes(one, []);
    assert [] + steps == steps;
    SlotsStay(one, [], steps);
    OneWorkerIsSteady(one);
    SteadyGivesReference(one, steps);
    MoreWorkers(one, c, steps);
  }

  /** Without fail-fast, undisturbed schedules all fill the slots alike exactly if the configuration is steady:
      if no analyzer reacts to how far its own group has come. */
  lemma InterleavingMattersExactly(c: Config)
    requires !c.failFast
    ensures (forall a, b :: Undisturbed(c, a) && Undisturbed(c, b) ==>
            After(c, a).value.slots == After(c, b).value.slots) <==> Steady(c)
  {
    hide Steady, After;
    if Steady(c) {
      forall a, b | Undisturbed(c, a) && Undisturbed(c, b) ensures After(c, a).value.slots == After(c, b).value.slots {
        SteadyGivesReference(c, a);
        SteadyGivesReference(c, b);
      }
    }
    if forall a, b :: Undisturbed(c, a) && Undisturbed(c, b) ==> After(c, a).value.slots == After(c, b).value.slots {
      var r := ReferenceOccurs(c);
      forall steps | Undisturbed(c, steps) ensures GivesReference(c, After(c, steps).value) {
        assert After(c, steps).value.slots == After(c, r).value.slots;
      }
      AgreementNeedsSteadiness(c);
    }
  }
}
