/** The analysis pipeline as a state machine: two phase groups, bounded concurrency, one result slot per analyzer,
    and one session directory that all analyzers share.

    A schedule is any sequence of enabled steps: the main loop spawning tasks, goroutines starting,
    running, writing their slot and returning, the group being joined, and the outside world
    cancelling. The results are about every schedule.

    What an analyzer returns depends on what it sees in the session directory, and other analyzers may
    be writing there while it looks.
 */
module Pipeline {
  import opened Bytes

  type Finding = int
  type Tool = int
  type Failure = int
  /** What an analyzer leaves in the session directory. */
  type Files = int

  /** What one analyzer sees of another's files: none, some while they are being written, or all. */
  datatype Seen = Absent | Torn(files: Files) | Whole(files: Files)
  type View = seq<Seen>

  /** What an analyzer's Run does: it returns a tool result and perhaps an error, or it panics,
      and then the result is built from the panic and has no output to take findings from. */
  datatype Outcome =
    | Returned(toolName: string, tool: Tool, findings: seq<Finding>, files: Files, err: Option<Failure>)
    | Panicked(tool: Tool, files: Files, message: Failure)

  datatype Analyzer = Analyzer(name: string, scanner: bool, outcome: View -> Outcome)

  datatype Config = Config(analyzers: seq<Analyzer>, maxConcurrency: int, failFast: bool, strict: bool)

  /** The bound on running tools; zero and negative settings mean four. */
  function Limit(c: Config): (n: nat)
    ensures n > 0
  {
    if c.maxConcurrency <= 0 then 4 else c.maxConcurrency
  }

  /** One filled slot, and the files its analyzer left behind. */
  datatype Run = Run(name: string, tool: Tool, findings: seq<Finding>, files: Files, err: Option<Failure>)

  /** An uninterrupted execution over a view; a panic becomes an error under the analyzer's own name. */
  function ResultOf(a: Analyzer, view: View): Run {
    match a.outcome(view)
    case Returned(toolName, tool, findings, files, err) => Run(toolName, tool, findings, files, err)
    case Panicked(tool, files, message) => Run(a.name, tool, [], files, Some(message))
  }

  // ---- state ----

  /** How far the files of an analyzer have come. */
  datatype Progress = Nothing | Ongoing | Finished(files: Files)

  /** A task's progress; a running task remembers what there was when it began. Everything between Spawned
      and Written holds one of the group's tokens. */
  datatype Status = Waiting | Spawned | Running(start: seq<Progress>) | Ran(run: Run) | Written(run: Run) | Done

  datatype Stage = First | Second | Over

  datatype State = State(
    status: seq<Status>, slots: seq<Option<Run>>, stage: Stage, next: nat,
    groupErr: Option<Failure>, groupCancelled: bool, firstErr: Option<Failure>, cancelled: bool)

  /** The error a task returns when it finds its context cancelled. */
  const CONTEXT_ERROR: Failure := -1

  datatype Step =
    | Spawn | Pass | Begin(i: nat) | Refuse(i: nat) | Finish(i: nat, view: View, run: Run)
    | Write(i: nat) | Return(i: nat) | Join | Cancel

  function Init(c: Config): State {
    State(seq(|c.analyzers|, _ => Waiting), seq(|c.analyzers|, _ => None), First, 0, None, false, None, false)
  }

  predicate Holding(t: Status) { t.Spawned? || t.Running? || t.Ran? || t.Written? }

  function Active(status: seq<Status>): nat {
    if status == [] then 0 else (if Holding(status[0]) then 1 else 0) + Active(status[1..])
  }

  /** Analyzer i belongs to the group of this stage. */
  predicate InGroup(c: Config, stage: Stage, i: nat)
    requires i < |c.analyzers|
  {
    if c.analyzers[i].scanner then stage == Second else stage == First
  }

  predicate Interrupted(s: State) { s.cancelled || s.groupCancelled }

  predicate Sized(c: Config, s: State) { |s.status| == |s.slots| == |c.analyzers| }

  // ---- the session directory ----

  /** How far a task's files have come; a refused task leaves none. */
  function ProgressOf(t: Status, slot: Option<Run>): Progress {
    match t
    case Waiting => Nothing
    case Spawned => Nothing
    case Running(_) => Ongoing
    case Ran(run) => Finished(run.files)
    case Written(run) => Finished(run.files)
    case Done => if slot.Some? then Finished(slot.value.files) else Nothing
  }

  function ProgressAt(s: State, i: nat): Progress
    requires i < |s.status| == |s.slots|
  {
    ProgressOf(s.status[i], s.slots[i])
  }

  function Directory(s: State): (r: seq<Progress>)
    requires |s.status| == |s.slots|
    ensures |r| == |s.status| && forall k :: 0 <= k < |r| ==> r[k] == ProgressAt(s, k)
  {
    seq(|s.status|, k requires 0 <= k < |s.status| => ProgressAt(s, k))
  }

  /** What can be seen of files by looking at any time between two states of them. */
  predicate MaySee(start: Progress, now: Progress, seen: Seen) {
    match seen
    case Absent => start == Nothing
    case Torn(_) => now != Nothing && !start.Finished?
    case Whole(files) => now == Finished(files)
  }

  /** A view that analyzer i can have had since it began; it does not look for its own files. */
  predicate Visible(s: State, i: nat, start: seq<Progress>, view: View)
    requires |s.status| == |s.slots|
  {
    && |view| == |start| == |s.status|
    && forall k :: 0 <= k < |view| ==> if k == i then view[k] == Absent else MaySee(start[k], ProgressAt(s, k), view[k])
  }

  // ---- steps ----

  predicate Enabled(c: Config, s: State, step: Step)
    requires Sized(c, s)
  {
    match step
    case Spawn => s.stage != Over && s.next < |s.status| && InGroup(c, s.stage, s.next)
                  && s.status[s.next] == Waiting && Active(s.status) < Limit(c)
    case Pass => s.stage != Over && s.next < |s.status| && !InGroup(c, s.stage, s.next)
    case Begin(i) => i < |s.status| && s.status[i] == Spawned && !Interrupted(s)
    case Refuse(i) => i < |s.status| && s.status[i] == Spawned && Interrupted(s)
    case Finish(i, view, run) =>
      i < |s.status| && s.status[i].Running?
      && (!Interrupted(s) ==> Visible(s, i, s.status[i].start, view) && run == ResultOf(c.analyzers[i], view))
    case Write(i) => i < |s.status| && s.status[i].Ran?
    case Return(i) => i < |s.status| && s.status[i].Written?
    case Join => s.stage != Over && s.next == |s.status| && Active(s.status) == 0
    case Cancel => !s.cancelled
  }

  /** The first error of a group is kept, and any error cancels the group's context. */
  function Fail(s: State, e: Failure): State {
    s.(groupErr := if s.groupErr.None? then Some(e) else s.groupErr, groupCancelled := true)
  }

  function Apply(c: Config, s: State, step: Step): (r: State)
    requires Sized(c, s) && Enabled(c, s, step)
    ensures Sized(c, r)
  {
    match step
    case Spawn => s.(status := s.status[s.next := Spawned], next := s.next + 1)
    case Pass => s.(next := s.next + 1)
    case Begin(i) => s.(status := s.status[i := Running(Directory(s))])
    case Refuse(i) => Fail(s.(status := s.status[i := Done]), CONTEXT_ERROR)
    case Finish(i, _, run) => s.(status := s.status[i := Ran(run)])
    case Write(i) => s.(status := s.status[i := Written(s.status[i].run)], slots := s.slots[i := Some(s.status[i].run)])
    case Return(i) =>
      var done := s.(status := s.status[i := Done]);
      if s.status[i].run.err.Some? && c.failFast then Fail(done, s.status[i].run.err.value) else done
    case Join =>
      if s.stage == First && !s.cancelled then
        s.(stage := Second, next := 0, firstErr := s.groupErr, groupErr := None, groupCancelled := false)
      else if s.stage == First then s.(stage := Over, firstErr := s.groupErr, groupErr := None)
      else s.(stage := Over)
    case Cancel => s.(cancelled := true)
  }

  // ---- schedules ----

  /** The state after a schedule, when each of its steps was enabled. */
  function After(c: Config, steps: seq<Step>): Option<State> {
    if steps == [] then Some(Init(c))
    else
      var before := After(c, steps[..|steps| - 1]);
      var step := steps[|steps| - 1];
      if before.Some? && Sized(c, before.value) && Enabled(c, before.value, step) then
          Some(Apply(c, before.value, step))
      else None
  }

  predicate Complete(c: Config, steps: seq<Step>) {
    After(c, steps).Some? && After(c, steps).value.stage == Over
  }

  // ---- invariants ----

  /** Task i is where its stage allows it to be, and its slot tells whether it has written. */
  predicate TaskOk(c: Config, s: State, i: nat)
    requires Sized(c, s) && i < |s.status|
  {
    var t := s.status[i];
    && (t.Waiting? || t.Spawned? || t.Running? || t.Ran? ==> s.slots[i] == None)
    && (t.Written? ==> s.slots[i] == Some(t.run))
    && (InGroup(c, s.stage, i) ==> (t.Waiting? <==> i >= s.next))
    && (s.stage == First && c.analyzers[i].scanner ==> t.Waiting?)
    && (s.stage == Second && !c.analyzers[i].scanner ==> t.Done?)
    && (s.stage == Over ==> t.Done? || (t.Waiting? && c.analyzers[i].scanner && s.cancelled))
  }

  /** Files only come into being, grow, and become complete. */
  predicate Grew(before: Progress, now: Progress) {
    match before
    case Nothing => true
    case Ongoing => now != Nothing
    case Finished(_) => now == before
  }

  /** What a running task found at its beginning is still there; for a scanner that is all of the first phase. */
  predicate StartOk(c: Config, s: State, i: nat)
    requires Sized(c, s) && i < |s.status|
  {
    s.status[i].Running? ==>
      && |s.status[i].start| == |s.status|
      && forall k :: 0 <= k < |s.status| ==>
           && Grew(s.status[i].start[k], ProgressAt(s, k))
           && (c.analyzers[i].scanner && !c.analyzers[k].scanner ==> s.status[i].start[k] == ProgressAt(s, k))
  }

  /** Without fail-fast and cancellation nobody is refused. */
  predicate NoneRefused(s: State)
    requires |s.status| == |s.slots|
  {
    !s.groupCancelled && s.firstErr.None? && forall i :: 0 <= i < |s.status| && s.status[i].Done? ==> s.slots[i].Some?
  }

  predicate Inv(c: Config, s: State) {
    && Sized(c, s) && s.next <= |s.status|
    && Active(s.status) <= Limit(c)
    && (forall i :: 0 <= i < |s.status| ==> TaskOk(c, s, i) && StartOk(c, s, i))
    && (!s.cancelled ==> (s.groupErr.Some? <==> s.groupCancelled))
    && (!c.failFast && !s.cancelled ==> NoneRefused(s))
  }

  lemma {:induction false} ActiveUpdate(status: seq<Status>, i: nat, t: Status)
    requires i < |status|
    ensures Active(status[i := t])
         == Active(status) - (if Holding(status[i]) then 1 else 0) + (if Holding(t) then 1 else 0)
  {
    if i > 0 {
      ActiveUpdate(status[1..], i - 1, t);
      assert status[i := t][1..] == status[1..][i - 1 := t];
    } else {
      assert status[i := t][1..] == status[1..];
    }
  }

  lemma {:induction false} NoneActive(status: seq<Status>)
    requires Active(status) == 0
    ensures forall i :: 0 <= i < |status| ==> !Holding(status[i])
  {
    if status != [] {
      NoneActive(status[1..]);
      forall i | 0 <= i < |status| ensures !Holding(status[i]) {
        if i > 0 { assert status[i] == status[1..][i - 1]; }
      }
    }
  }

  lemma {:induction false} AllWaiting(n: nat)
    ensures Active(seq(n, _ => Waiting)) == 0
  {
    if n > 0 {
      AllWaiting(n - 1);
      assert seq(n, _ => Waiting)[1..] == seq(n - 1, _ => Waiting);
    }
  }

  lemma InitInv(c: Config)
    ensures Inv(c, Init(c))
  {
    AllWaiting(|c.analyzers|);
    assert Init(c).status == seq(|c.analyzers|, _ => Waiting);
  }

  lemma StepInv(c: Config, s: State, step: Step)
    requires Inv(c, s) && Enabled(c, s, step)
    ensures Inv(c, Apply(c, s, step))
  {
    var r := Apply(c, s, step);
    StepActive(c, s, step);
    StepGroup(c, s, step);
    forall i | 0 <= i < |s.status| ensures TaskOk(c, r, i) && StartOk(c, r, i) {
      StepTask(c, s, step, i);
      StepStart(c, s, step, i);
    }
    hide Apply, TaskOk, StartOk, Active, Enabled, NoneRefused;
  }

  lemma StepTask(c: Config, s: State, step: Step, i: nat)
    requires Inv(c, s) && Enabled(c, s, step) && i < |s.status|
    ensures TaskOk(c, Apply(c, s, step), i)
  {
    hide StartOk, Active, NoneRefused, Visible, ResultOf, Directory;
    if step.Join? { NoneActive(s.status); }
    assert TaskOk(c, s, i);
  }

  /** No step takes files away. */
  lemma StepGrows(c: Config, s: State, step: Step, k: nat)
    requires Inv(c, s) && Enabled(c, s, step) && k < |s.status|
    ensures Grew(ProgressAt(s, k), ProgressAt(Apply(c, s, step), k))
    ensures s.status[k].Done? ==> Apply(c, s, step).status[k].Done? && Apply(c, s, step).slots[k] == s.slots[k]
  {
    hide StartOk, Active, NoneRefused, Visible, ResultOf, Directory;
    assert TaskOk(c, s, k);
  }

  lemma GrewAgain(a: Progress, b: Progress, d: Progress)
    requires Grew(a, b) && Grew(b, d)
    ensures Grew(a, d)
  {
  }

  /** Once a scanner is spawned the first phase is over. */
  lemma FirstPhaseDone(c: Config, s: State, i: nat, k: nat)
    requires Inv(c, s) && i < |s.status| && k < |s.status|
    ensures c.analyzers[i].scanner && !c.analyzers[k].scanner && !s.status[i].Waiting? ==> s.status[k].Done?
  {
    hide StartOk, Active, NoneRefused;
    assert TaskOk(c, s, i) && TaskOk(c, s, k);
  }

  /** What a running task began with, as it stands before the step. */
  lemma StartKnown(c: Config, s: State, step: Step, i: nat)
    requires Inv(c, s) && Enabled(c, s, step) && i < |s.status| && Apply(c, s, step).status[i].Running?
    ensures var start := Apply(c, s, step).status[i].start;
            && |start| == |s.status| && !s.status[i].Waiting?
            && forall k :: 0 <= k < |s.status| ==>
                 && Grew(start[k], ProgressAt(s, k))
                 && (c.analyzers[i].scanner && !c.analyzers[k].scanner ==> start[k] == ProgressAt(s, k))
  {
    hide TaskOk, Active, NoneRefused, Visible, ResultOf, ProgressAt, Directory;
    assert StartOk(c, s, i);
    if step == Begin(i) { assert forall k :: 0 <= k < |s.status| ==> Directory(s)[k] == ProgressAt(s, k); }
  }

  lemma StepStart(c: Config, s: State, step: Step, i: nat)
    requires Inv(c, s) && Enabled(c, s, step) && i < |s.status|
    ensures StartOk(c, Apply(c, s, step), i)
  {
    var r := Apply(c, s, step);
    if r.status[i].Running? {
      StartKnown(c, s, step, i);
      forall k | 0 <= k < |s.status|
        ensures Grew(r.status[i].start[k], ProgressAt(r, k))
        ensures c.analyzers[i].scanner && !c.analyzers[k].scanner ==> r.status[i].start[k] == ProgressAt(r, k)
      {
        StepGrows(c, s, step, k);
        GrewAgain(r.status[i].start[k], ProgressAt(s, k), ProgressAt(r, k));
        FirstPhaseDone(c, s, i, k);
      }
      hide Apply, Inv, Enabled;
    }
  }

  lemma StepGroup(c: Config, s: State, step: Step)
    requires Inv(c, s) && Enabled(c, s, step)
    ensures var r := Apply(c, s, step);
            && Sized(c, r) && r.next <= |r.status| && |r.status| == |s.status|
            && (!r.cancelled ==> (r.groupErr.Some? <==> r.groupCancelled))
            && (!c.failFast && !r.cancelled ==> NoneRefused(r))
  {
    hide StartOk, Active, Visible, ResultOf, Directory;
    if step.Return? { assert TaskOk(c, s, step.i); }
    hide TaskOk;
  }

  lemma StepActive(c: Config, s: State, step: Step)
    requires Inv(c, s) && Enabled(c, s, step)
    ensures Active(Apply(c, s, step).status) <= Limit(c)
  {
    hide TaskOk, StartOk, NoneRefused, Visible, ResultOf, Directory, Active;
    match step
    case Spawn => ActiveUpdate(s.status, s.next, Spawned);
    case Begin(i) => ActiveUpdate(s.status, i, Running(Directory(s)));
    case Refuse(i) => ActiveUpdate(s.status, i, Done);
    case Finish(i, _, run) => ActiveUpdate(s.status, i, Ran(run));
    case Write(i) => ActiveUpdate(s.status, i, Written(s.status[i].run));
    case Return(i) => ActiveUpdate(s.status, i, Done);
    case _ =>
  }

  /** Every state of every schedule satisfies the invariant. */
  lemma {:induction false} ScheduleInv(c: Config, steps: seq<Step>)
    requires After(c, steps).Some?
    ensures Inv(c, After(c, steps).value)
  {
    hide Inv, Enabled, Apply, Init;
    if steps == [] {
      InitInv(c);
    } else {
      var prefix := steps[..|steps| - 1];
      ScheduleInv(c, prefix);
      StepInv(c, After(c, prefix).value, steps[|steps| - 1]);
    }
  }

  // ---- safety over every schedule ----

  function Count(steps: seq<Step>, p: Step -> bool): nat {
    if steps == [] then 0 else Count(steps[..|steps| - 1], p) + if p(steps[|steps| - 1]) then 1 else 0
  }

  function Writes(i: nat): Step -> bool { (step: Step) => step == Write(i) }
  function Begins(i: nat): Step -> bool { (step: Step) => step == Begin(i) }

  /** At most the configured number of tools run at once; each slot is written at most once and only
      by its own task; no scanner starts before every analyzer of the first phase has returned. */
  lemma ScheduleIsSafe(c: Config, steps: seq<Step>)
    requires After(c, steps).Some?
    ensures var s := After(c, steps).value;
            && Active(s.status) <= Limit(c)
            && (forall i :: 0 <= i < |s.slots| ==> Count(steps, Writes(i)) == if s.slots[i].Some? then 1 else 0)
            && (forall i, j :: 0 <= i < |s.status| && 0 <= j < |s.status| ==>
                  c.analyzers[i].scanner && !c.analyzers[j].scanner && !s.status[i].Waiting? ==> s.status[j].Done?)
  {
    hide After, TaskOk, StartOk, NoneRefused, Active;
    ScheduleInv(c, steps);
    var s := After(c, steps).value;
    forall i | 0 <= i < |s.slots| ensures Count(steps, Writes(i)) == if s.slots[i].Some? then 1 else 0 {
      WritesOnce(c, steps, i);
    }
    forall i, j | 0 <= i < |s.status| && 0 <= j < |s.status|
      ensures c.analyzers[i].scanner && !c.analyzers[j].scanner && !s.status[i].Waiting? ==> s.status[j].Done?
    {
      FirstPhaseDone(c, s, i, j);
    }
  }

  lemma {:induction false} WritesOnce(c: Config, steps: seq<Step>, i: nat)
    requires After(c, steps).Some? && i < |c.analyzers|
    ensures Count(steps, Writes(i)) == if After(c, steps).value.slots[i].Some? then 1 else 0
  {
    hide StartOk, NoneRefused, Active, Visible, ResultOf, Directory;
    if steps != [] {
      var prefix := steps[..|steps| - 1];
      WritesOnce(c, prefix, i);
      ScheduleInv(c, prefix);
      assert TaskOk(c, After(c, prefix).value, i);
    }
  }

  /** An analyzer has been run if its task is past its beginning; a refused one has not. */
  predicate HasBegun(s: State, i: nat)
    requires i < |s.status| == |s.slots|
  {
    ProgressAt(s, i) != Nothing
  }

  lemma StepBegins(c: Config, s: State, step: Step, i: nat)
    requires Inv(c, s) && Enabled(c, s, step) && i < |s.status|
    ensures HasBegun(Apply(c, s, step), i) <==> HasBegun(s, i) || step == Begin(i)
    ensures step == Begin(i) ==> !HasBegun(s, i)
  {
    hide StartOk, NoneRefused, Active, Visible, ResultOf, Directory;
    assert TaskOk(c, s, i);
  }

  /** No analyzer is run twice, and it is run exactly if its task got past its beginning. */
  lemma {:induction false} BeginsOnce(c: Config, steps: seq<Step>, i: nat)
    requires After(c, steps).Some? && i < |c.analyzers|
    ensures var s := After(c, steps).value;
            |s.status| == |s.slots| == |c.analyzers| && Count(steps, Begins(i)) == if HasBegun(s, i) then 1 else 0
  {
    hide Enabled, Apply, HasBegun;
    if steps == [] {
      NoneBegun(c, i);
    } else {
      var prefix := steps[..|steps| - 1];
      BeginsOnce(c, prefix, i);
      ScheduleInv(c, prefix);
      StepBegins(c, After(c, prefix).value, steps[|steps| - 1], i);
      assert Begins(i)(steps[|steps| - 1]) <==> steps[|steps| - 1] == Begin(i);
    }
  }

  lemma NoneBegun(c: Config, i: nat)
    requires i < |c.analyzers|
    ensures !HasBegun(Init(c), i)
  {
  }

  /** Without fail-fast and cancellation every complete schedule runs each analyzer exactly once and fills its slot. */
  lemma EachRunsOnce(c: Config, steps: seq<Step>, i: nat)
    requires !c.failFast && Complete(c, steps) && !After(c, steps).value.cancelled && i < |c.analyzers|
    ensures Count(steps, Begins(i)) == 1 && Count(steps, Writes(i)) == 1 && After(c, steps).value.slots[i].Some?
  {
    hide After, StartOk, Active;
    ScheduleInv(c, steps);
    BeginsOnce(c, steps, i);
    WritesOnce(c, steps, i);
    assert TaskOk(c, After(c, steps).value, i);
  }

  /** The barrier: whatever a scanner can see of the first phase is what the first phase has left for good, whole
      where its analyzer was run and nothing where it was refused. */
  lemma ScannersSeeTheFirstPhase(c: Config, steps: seq<Step>, i: nat, view: View, k: nat)
    requires After(c, steps).Some? && i < |c.analyzers| && k < |c.analyzers| && c.analyzers[i].scanner &&
             !c.analyzers[k].scanner
    requires var s := After(c, steps).value;
             |s.status| == |s.slots| == |c.analyzers| && s.status[i].Running? && Visible(s, i, s.status[i].start, view)
    ensures var slot := After(c, steps).value.slots[k];
            view[k] == if slot.Some? then Whole(slot.value.files) else Absent
  {
    hide After, TaskOk, Active, NoneRefused;
    ScheduleInv(c, steps);
    FirstPhaseDone(c, After(c, steps).value, i, k);
    assert StartOk(c, After(c, steps).value, i);
  }

  // ---- progress ----

  function Rank(t: Status): nat {
    match t
    case Waiting => 5
    case Spawned => 4
    case Running(_) => 3
    case Ran(_) => 2
    case Written(_) => 1
    case Done => 0
  }

  function Ranks(status: seq<Status>): nat {
    if status == [] then 0 else Rank(status[0]) + Ranks(status[1..])
  }

  lemma {:induction false} RanksUpdate(status: seq<Status>, i: nat, t: Status)
    requires i < |status|
    ensures Ranks(status[i := t]) == Ranks(status) - Rank(status[i]) + Rank(t)
  {
    if i > 0 {
      RanksUpdate(status[1..], i - 1, t);
      assert status[i := t][1..] == status[1..][i - 1 := t];
    } else {
      assert status[i := t][1..] == status[1..];
    }
  }

  /** Work left: task progress, the main loop's position, the stages, and the one possible cancellation. */
  function Work(s: State): int {
    Ranks(s.status) + (|s.status| - s.next)
    + (match s.stage case First => |s.status| + 2 case Second => 1 case Over => 0)
    + (if s.cancelled then 0 else 1)
  }

  lemma StepWorks(c: Config, s: State, step: Step)
    requires Inv(c, s) && Enabled(c, s, step)
    ensures 0 <= Work(Apply(c, s, step)) < Work(s)
  {
    hide TaskOk, StartOk, NoneRefused, Active, Ranks, Visible, ResultOf, Directory;
    match step
    case Spawn => RanksUpdate(s.status, s.next, Spawned);
    case Begin(i) => RanksUpdate(s.status, i, Running(Directory(s)));
    case Refuse(i) => RanksUpdate(s.status, i, Done);
    case Finish(i, _, run) => RanksUpdate(s.status, i, Ran(run));
    case Write(i) => RanksUpdate(s.status, i, Written(s.status[i].run));
    case Return(i) => RanksUpdate(s.status, i, Done);
    case _ =>
  }

  lemma {:induction false} ActiveWitness(status: seq<Status>) returns (i: nat)
    requires Active(status) > 0
    ensures i < |status| && Holding(status[i])
  {
    if Holding(status[0]) {
      i := 0;
    } else {
      i := ActiveWitness(status[1..]);
      i := i + 1;
    }
  }

  /** What there is to see at this moment. */
  function Snapshot(s: State, i: nat): View
    requires |s.status| == |s.slots|
  {
    seq(|s.status|, k requires 0 <= k < |s.status| => if k == i then Absent else SeenAs(ProgressAt(s, k)))
  }

  function SeenAs(p: Progress): Seen {
    match p
    case Nothing => Absent
    case Ongoing => Torn(0)
    case Finished(files) => Whole(files)
  }

  /** A running analyzer can always finish over what there is to see. */
  lemma LastLook(c: Config, s: State, i: nat) returns (step: Step)
    requires Inv(c, s) && i < |s.status| && s.status[i].Running?
    ensures Enabled(c, s, step) && step == Finish(i, Snapshot(s, i), ResultOf(c.analyzers[i], Snapshot(s, i)))
  {
    step := Finish(i, Snapshot(s, i), ResultOf(c.analyzers[i], Snapshot(s, i)));
    assert StartOk(c, s, i);
    forall k | 0 <= k < |s.status| && k != i ensures MaySee(s.status[i].start[k], ProgressAt(s, k), Snapshot(s, i)[k]) {
      assert Grew(s.status[i].start[k], ProgressAt(s, k));
    }
    hide ResultOf, TaskOk, NoneRefused, Active;
  }

  /** An unfinished run is never stuck, even if nobody cancels it. */
  lemma NeverStuck(c: Config, s: State) returns (step: Step)
    requires Inv(c, s) && s.stage != Over
    ensures Enabled(c, s, step) && !step.Cancel?
  {
    if Active(s.status) > 0 {
      var i := ActiveWitness(s.status);
      match s.status[i]
      case Spawned => step := if Interrupted(s) then Refuse(i) else Begin(i);
      case Running(_) => step := LastLook(c, s, i);
      case Ran(_) => step := Write(i);
      case Written(_) => step := Return(i);
    } else if s.next == |s.status| {
      step := Join;
    } else {
      assert TaskOk(c, s, s.next);
      step := if InGroup(c, s.stage, s.next) then Spawn else Pass;
    }
  }

  /** Every schedule can be carried on to completion without cancelling, and within a fixed number of steps. */
  lemma {:induction false} EveryScheduleCompletes(c: Config, steps: seq<Step>) returns (more: seq<Step>)
    requires After(c, steps).Some?
    ensures Complete(c, steps + more)
    ensures forall step :: step in more ==> !step.Cancel?
    ensures |more| <= Work(After(c, steps).value)
    decreases Work(After(c, steps).value)
  {
    ScheduleInv(c, steps);
    var s := After(c, steps).value;
    if s.stage == Over {
      more := [];
      assert steps + more == steps;
    } else {
      var step := NeverStuck(c, s);
      StepWorks(c, s, step);
      assert (steps + [step])[..|steps|] == steps;
      more := EveryScheduleCompletes(c, steps + [step]);
      assert steps + [step] + more == steps + ([step] + more);
      more := [step] + more;
    }
  }
}
