/** Per-tool analyzer counters: an entry is loaded or stored atomically, then three counters are added to one by one. */
module AnalyzerMetrics {
  import opened Bytes

  /** The three counters of a tool. */
  datatype Counter = Counter(runs: int, nanos: int, errors: int)

  const ZERO := Counter(0, 0, 0)

  /** Where a thread is in recording one execution. */
  datatype Local =
    | Idle
    | Entering(tool: string, nanos: int, failed: bool)
    | Counting(tool: string, cell: nat, nanos: int, failed: bool)
    | Timing(tool: string, cell: nat, nanos: int, failed: bool)
    | Failing(tool: string, cell: nat)

  /** `called` records what all calls so far add up to. */
  datatype State = State(entries: map<string, nat>, cells: seq<Counter>, threads: seq<Local>,
      called: map<string, Counter>)

  datatype Action = Call(tool: string, nanos: int, failed: bool) | LoadOrStore | AddRun | AddNanos | AddError
  datatype Step = Step(thread: nat, action: Action)

  function Init(n: nat): State { State(map[], [], seq(n, _ => Idle), map[]) }

  function Get(m: map<string, Counter>, tool: string): Counter { if tool in m then m[tool] else ZERO }

  function Record(c: Counter, nanos: int, failed: bool): Counter {
    Counter(c.runs + 1, c.nanos + nanos, c.errors + if failed then 1 else 0)
  }

  predicate Enabled(s: State, step: Step) {
    && step.thread < |s.threads|
    && var at := s.threads[step.thread];
       match step.action
       case Call(_, _, _) => at == Idle
       case LoadOrStore => at.Entering?
       case AddRun => at.Counting? && at.cell < |s.cells|
       case AddNanos => at.Timing? && at.cell < |s.cells|
       case AddError => at.Failing? && at.cell < |s.cells|
  }

  /** One step; only the thread that takes it moves. */
  function Apply(s: State, step: Step): (r: State)
    requires Enabled(s, step)
    ensures |r.threads| == |s.threads| && r.threads == s.threads[step.thread := r.threads[step.thread]]
  {
    var t, at := step.thread, s.threads[step.thread];
    match step.action
    case Call(tool, nanos, failed) =>
      s.(threads := s.threads[t := Entering(tool, nanos, failed)],
          called := s.called[tool := Record(Get(s.called, tool), nanos, failed)])
    case LoadOrStore =>
      if at.tool in s.entries then
          s.(threads := s.threads[t := Counting(at.tool, s.entries[at.tool], at.nanos, at.failed)])
      else s.(threads := s.threads[t := Counting(at.tool, |s.cells|, at.nanos, at.failed)],
              entries := s.entries[at.tool := |s.cells|], cells := s.cells + [ZERO])
    case AddRun =>
      var c := s.cells[at.cell];
      s.(threads := s.threads[t := Timing(at.tool, at.cell, at.nanos, at.failed)],
          cells := s.cells[at.cell := c.(runs := c.runs + 1)])
    case AddNanos =>
      var c := s.cells[at.cell];
      s.(threads := s.threads[t := if at.failed then Failing(at.tool, at.cell) else Idle],
         cells := s.cells[at.cell := c.(nanos := c.nanos + at.nanos)])
    case AddError =>
      var c := s.cells[at.cell];
      s.(threads := s.threads[t := Idle], cells := s.cells[at.cell := c.(errors := c.errors + 1)])
  }

  function After(n: nat, run: seq<Step>): Option<State> {
    if run == [] then Some(Init(n))
    else
      var before, step := After(n, run[..|run| - 1]), run[|run| - 1];
      if before.Some? && Enabled(before.value, step) then Some(Apply(before.value, step)) else None
  }

  // ---- what holds in every state ----

  /** The counters; Late are the errors still to come from executions whose run is already counted. */
  datatype Part = Runs | Nanos | Errors | Late

  function Read(c: Counter, part: Part): int {
    match part
    case Runs => c.runs
    case Nanos => c.nanos
    case Errors => c.errors
    case Late => 0
  }

  /** What a thread has still to add for a tool. */
  function Owes(l: Local, tool: string, part: Part): int {
    if l.Idle? || l.tool != tool then 0
    else
      match part
      case Runs => if l.Entering? || l.Counting? then 1 else 0
      case Nanos => if l.Failing? then 0 else l.nanos
      case Errors => if l.Failing? || l.failed then 1 else 0
      case Late => if l.Failing? || (l.Timing? && l.failed) then 1 else 0
  }

  function Owed(ts: seq<Local>, tool: string, part: Part): int {
    if ts == [] then 0 else Owes(ts[0], tool, part) + Owed(ts[1..], tool, part)
  }

  function Stored(s: State, tool: string): Counter {
    if tool in s.entries && s.entries[tool] < |s.cells| then s.cells[s.entries[tool]] else ZERO
  }

  predicate EntriesOk(s: State) {
    && (forall k :: k in s.entries ==> s.entries[k] < |s.cells|)
    && (forall j, k :: j in s.entries && k in s.entries && j != k ==> s.entries[j] != s.entries[k])
  }

  predicate ThreadOk(s: State, l: Local) {
    l.Counting? || l.Timing? || l.Failing? ==> l.tool in s.entries && s.entries[l.tool] == l.cell
  }

  /** Stored plus owed is what was called for. */
  predicate Balanced(s: State, tool: string, part: Part) {
    Read(Stored(s, tool), part) + Owed(s.threads, tool, part) == Read(Get(s.called, tool), part)
  }

  /** Errors, even those still to come from counted runs, are no more than the runs. */
  predicate ErrorsFit(s: State, tool: string) {
    Stored(s, tool).errors + Owed(s.threads, tool, Late) <= Stored(s, tool).runs
  }

  ghost predicate Inv(s: State) {
    && EntriesOk(s)
    && (forall t :: 0 <= t < |s.threads| ==> ThreadOk(s, s.threads[t]))
    && (forall tool, part :: part != Late ==> Balanced(s, tool, part))
    && (forall tool :: ErrorsFit(s, tool))
  }

  lemma {:induction false} OwedUpdate(ts: seq<Local>, t: nat, l: Local, tool: string, part: Part)
    requires t < |ts|
    ensures Owed(ts[t := l], tool, part) == Owed(ts, tool, part) - Owes(ts[t], tool, part) + Owes(l, tool, part)
  {
    hide Owes;
    if t > 0 {
      OwedUpdate(ts[1..], t - 1, l, tool, part);
      assert ts[t := l][1..] == ts[1..][t - 1 := l];
    } else {
      assert ts[t := l][1..] == ts[1..];
    }
  }

  lemma {:induction false} NothingOwed(ts: seq<Local>, tool: string, part: Part)
    requires forall t :: 0 <= t < |ts| ==> ts[t] == Idle
    ensures Owed(ts, tool, part) == 0
  {
    if ts != [] { NothingOwed(ts[1..], tool, part); }
  }

  lemma StepEntries(s: State, step: Step)
    requires Enabled(s, step) && EntriesOk(s) && ThreadOk(s, s.threads[step.thread])
    ensures var r := Apply(s, step);
            && EntriesOk(r) && ThreadOk(r, r.threads[step.thread])
            && (forall k :: k in s.entries ==> k in r.entries && r.entries[k] == s.entries[k])
  {
  }

  /** A tool's counters after a step. */
  function Grown(s: State, step: Step, tool: string): Counter
    requires Enabled(s, step)
  {
    var at, c := s.threads[step.thread], Stored(s, tool);
    if at.Idle? || at.tool != tool then c
    else
      match step.action
      case AddRun => c.(runs := c.runs + 1)
      case AddNanos => c.(nanos := c.nanos + at.nanos)
      case AddError => c.(errors := c.errors + 1)
      case _ => c
  }

  lemma StepStored(s: State, step: Step, tool: string)
    requires Enabled(s, step) && EntriesOk(s) && ThreadOk(s, s.threads[step.thread])
    ensures Stored(Apply(s, step), tool) == Grown(s, step, tool)
  {
    var at := s.threads[step.thread];
    if step.action.AddRun? || step.action.AddNanos? || step.action.AddError? {
      if tool in s.entries && tool != at.tool { assert s.entries[tool] != at.cell; }
    }
  }

  /** What a step adds to a tool's counters or calls, its thread owes less or more. */
  lemma OwnDebt(s: State, step: Step, tool: string, part: Part)
    requires Enabled(s, step) && part != Late
    ensures var r, t := Apply(s, step), step.thread;
            && Read(Grown(s, step, tool), part) - Read(Stored(s, tool), part)
               == Owes(s.threads[t], tool, part) - Owes(r.threads[t], tool, part)
                  + Read(Get(r.called, tool), part) - Read(Get(s.called, tool), part)
  {
    hide Stored;
  }

  lemma StepBalanced(s: State, step: Step, tool: string, part: Part)
    requires Enabled(s, step) && EntriesOk(s) && ThreadOk(s, s.threads[step.thread]) && part != Late &&
             Balanced(s, tool, part)
    ensures Balanced(Apply(s, step), tool, part)
  {
    var r := Apply(s, step);
    StepStored(s, step, tool);
    OwnDebt(s, step, tool, part);
    hide Owed, Owes, EntriesOk, ThreadOk, Stored, Grown, Apply, Enabled;
    OwedUpdate(s.threads, step.thread, r.threads[step.thread], tool, part);
  }

  lemma StepErrorsFit(s: State, step: Step, tool: string)
    requires Enabled(s, step) && EntriesOk(s) && ThreadOk(s, s.threads[step.thread]) && ErrorsFit(s, tool)
    ensures ErrorsFit(Apply(s, step), tool)
  {
    var r := Apply(s, step);
    OwedUpdate(s.threads, step.thread, r.threads[step.thread], tool, Late);
    StepStored(s, step, tool);
    hide Owed, EntriesOk, ThreadOk, Stored;
  }

  lemma StepInv(s: State, step: Step)
    requires Inv(s) && Enabled(s, step)
    ensures Inv(Apply(s, step))
  {
    var r := Apply(s, step);
    assert ThreadOk(s, s.threads[step.thread]);
    StepEntries(s, step);
    hide Apply, Balanced, ErrorsFit, EntriesOk, Enabled;
    forall tool, part | part != Late ensures Balanced(r, tool, part) { StepBalanced(s, step, tool, part); }
    forall tool ensures ErrorsFit(r, tool) { StepErrorsFit(s, step, tool); }
    forall t | 0 <= t < |r.threads| ensures ThreadOk(r, r.threads[t]) {
      assert t != step.thread ==> r.threads[t] == s.threads[t] && ThreadOk(s, s.threads[t]);
    }
  }

  lemma InitInv(n: nat)
    ensures Inv(Init(n))
  {
    var s := Init(n);
    assert EntriesOk(s);
    forall tool, part ensures Owed(s.threads, tool, part) == 0 { NothingOwed(s.threads, tool, part); }
    hide Owed;
  }

  lemma {:induction false} RunInv(n: nat, run: seq<Step>)
    requires After(n, run).Some?
    ensures Inv(After(n, run).value)
  {
    hide Inv, Enabled, Apply, Init;
    if run == [] {
      InitInv(n);
    } else {
      RunInv(n, run[..|run| - 1]);
      StepInv(After(n, run[..|run| - 1]).value, run[|run| - 1]);
    }
  }

  /** In every interleaving a tool's stored runs, time and errors plus what its threads still owe are what was
      called for, and errors never exceed runs. */
  lemma ExecutionsAddUp(n: nat, run: seq<Step>, tool: string)
    requires After(n, run).Some?
    ensures var s := After(n, run).value;
            && (forall part :: part != Late ==> Balanced(s, tool, part))
            && Stored(s, tool).errors <= Stored(s, tool).runs
  {
    hide After, EntriesOk, ThreadOk, Balanced, Owed;
    RunInv(n, run);
    var s := After(n, run).value;
    assert ErrorsFit(s, tool);
    OwedLateIsNatural(s.threads, tool);
  }

  lemma {:induction false} OwedLateIsNatural(ts: seq<Local>, tool: string)
    ensures Owed(ts, tool, Late) >= 0
  {
    if ts != [] { OwedLateIsNatural(ts[1..], tool); }
  }

  /** When all threads are idle the counters are exactly what was called for. */
  lemma NothingIsOwedAtRest(n: nat, run: seq<Step>, tool: string)
    requires After(n, run).Some?
    requires forall t :: 0 <= t < |After(n, run).value.threads| ==> After(n, run).value.threads[t] == Idle
    ensures Stored(After(n, run).value, tool) == Get(After(n, run).value.called, tool)
  {
    var s := After(n, run).value;
    hide After, Owed, Stored, Get;
    ExecutionsAddUp(n, run, tool);
    NothingOwed(s.threads, tool, Runs);
    NothingOwed(s.threads, tool, Nanos);
    NothingOwed(s.threads, tool, Errors);
    assert Balanced(s, tool, Runs) && Balanced(s, tool, Nanos) && Balanced(s, tool, Errors);
  }
}
