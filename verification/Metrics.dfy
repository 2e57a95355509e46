/** Counters shared by threads: a label counter whose map is guarded by a lock while the increments are not,
    and a cost total kept by load and compare-and-swap.

    A run is any interleaving of the threads' steps. `plus` is the addition of a cost to the stored bits;
    nothing is asked of it, so floating-point rounding is covered.
 */
module Metrics {
  import opened Bytes

  type Bits = U64
  type Plus = (Bits, real) -> Bits

  /** Where a thread is. */
  datatype Local =
    | Idle
    | Queued(key: string)                       // wants the lock for an increment
    | Looking(key: string)                      // holds the lock, before the lookup
    | Creating(key: string)                     // holds the lock, the key was missing
    | Leaving(key: string, cell: nat)           // holds the lock and its counter
    | Adding(key: string, cell: nat)            // released the lock, the add is still to come
    | SnapQueued                                // wants the lock for a snapshot
    | Copying(out: map<string, nat>)            // holds the lock, has loaded some counters
    | Costing(cost: real)                       // about to load the total
    | Swapping(cost: real, old_: Bits, seen: nat) // about to swap; `seen` is the number of commits at the load

  /** counts maps a key to its counter, an index into cells. The last three fields record history:
      increments begun per key, costs committed in order, and snapshots taken in order. */
  datatype State = State(
    lock: Option<nat>, counts: map<string, nat>, cells: seq<nat>, total: Bits, threads: seq<Local>,
    begun: map<string, nat>, commits: seq<real>, snaps: seq<map<string, nat>>)

  datatype Action =
    | CallInc(key: string) | CallSnapshot | CallCost(cost: real)
    | Acquire | Lookup | Create | Release | Add | CopyOne(key: string) | FinishCopy | Load | Swap

  datatype Step = Step(thread: nat, action: Action)

  function Init(n: nat): State { State(None, map[], [], 0, seq(n, _ => Idle), map[], [], []) }

  function At0(m: map<string, nat>, key: string): nat { if key in m then m[key] else 0 }

  predicate Enabled(s: State, step: Step) {
    && step.thread < |s.threads|
    && var at := s.threads[step.thread];
       match step.action
       case CallInc(_) => at == Idle
       case CallSnapshot => at == Idle
       case CallCost(cost) => at == Idle && cost > 0.0
       case Acquire => s.lock.None? && (at.Queued? || at.SnapQueued?)
       case Lookup => at.Looking?
       case Create => at.Creating?
       case Release => at.Leaving?
       case Add => at.Adding? && at.cell < |s.cells|
       case CopyOne(key) => at.Copying? && key in s.counts && s.counts[key] < |s.cells| && key !in at.out
       case FinishCopy => at.Copying? && at.out.Keys == s.counts.Keys
       case Load => at.Costing?
       case Swap => at.Swapping?
  }

  function Move(s: State, t: nat, to: Local): State
    requires t < |s.threads|
  {
    s.(threads := s.threads[t := to])
  }

  /** One step; only the thread that takes it moves. */
  function Apply(plus: Plus, s: State, step: Step): (r: State)
    requires Enabled(s, step)
    ensures |r.threads| == |s.threads| && r.threads == s.threads[step.thread := r.threads[step.thread]]
  {
    var t, at := step.thread, s.threads[step.thread];
    match step.action
    case CallInc(key) => Move(s, t, Queued(key)).(begun := s.begun[key := At0(s.begun, key) + 1])
    case CallSnapshot => Move(s, t, SnapQueued)
    case CallCost(cost) => Move(s, t, Costing(cost))
    case Acquire => Move(s, t, if at.Queued? then Looking(at.key) else Copying(map[])).(lock := Some(t))
    case Lookup => Move(s, t, if at.key in s.counts then Leaving(at.key, s.counts[at.key]) else Creating(at.key))
    case Create =>
      Move(s, t, Leaving(at.key, |s.cells|)).(cells := s.cells + [0], counts := s.counts[at.key := |s.cells|])
    case Release => Move(s, t, Adding(at.key, at.cell)).(lock := None)
    case Add => Move(s, t, Idle).(cells := s.cells[at.cell := s.cells[at.cell] + 1])
    case CopyOne(key) => Move(s, t, Copying(at.out[key := s.cells[s.counts[key]]]))
    case FinishCopy => Move(s, t, Idle).(lock := None, snaps := s.snaps + [at.out])
    case Load => Move(s, t, Swapping(at.cost, s.total, |s.commits|))
    case Swap =>
      if s.total == at.old_ then Move(s, t, Idle).(total := plus(at.old_, at.cost), commits := s.commits + [at.cost])
      else Move(s, t, Costing(at.cost))
  }

  /** The state after a run, if every step of it was enabled. */
  function After(plus: Plus, n: nat, run: seq<Step>): Option<State> {
    if run == [] then Some(Init(n))
    else
      var before, step := After(plus, n, run[..|run| - 1]), run[|run| - 1];
      if before.Some? && Enabled(before.value, step) then Some(Apply(plus, before.value, step)) else None
  }

  // ---- what holds in every state ----

  predicate HoldsLock(l: Local) { l.Looking? || l.Creating? || l.Leaving? || l.Copying? }

  predicate Pending(l: Local, key: string) {
    (l.Queued? || l.Looking? || l.Creating? || l.Leaving? || l.Adding?) && l.key == key
  }

  /** Increments of a key that were called and have not added yet. */
  function PendingAdds(ts: seq<Local>, key: string): nat {
    if ts == [] then 0 else (if Pending(ts[0], key) then 1 else 0) + PendingAdds(ts[1..], key)
  }

  /** The stored count of a key. */
  function Value(s: State, key: string): nat {
    if key in s.counts && s.counts[key] < |s.cells| then s.cells[s.counts[key]] else 0
  }

  function Total(plus: Plus, commits: seq<real>): Bits {
    if commits == [] then 0 else plus(Total(plus, commits[..|commits| - 1]), commits[|commits| - 1])
  }

  /** Every key has a counter of its own. */
  predicate CountsOk(s: State) {
    && (forall k :: k in s.counts ==> s.counts[k] < |s.cells|)
    && (forall j, k :: j in s.counts && k in s.counts && j != k ==> s.counts[j] != s.counts[k])
  }

  predicate ThreadOk(plus: Plus, s: State, t: nat)
    requires t < |s.threads|
  {
    var l := s.threads[t];
    && (HoldsLock(l) <==> s.lock == Some(t))
    && (l.Leaving? || l.Adding? ==> l.key in s.counts && s.counts[l.key] == l.cell)
    && (l.Creating? ==> l.key !in s.counts)
    && (l.Copying? ==> Below(l.out, s))
    && (l.Swapping? ==> l.seen <= |s.commits| && l.old_ == Total(plus, s.commits[..l.seen]))
  }

  /** Copied values are at most the stored ones. */
  predicate Below(out: map<string, nat>, s: State) {
    forall k :: k in out ==> k in s.counts && out[k] <= Value(s, k)
  }

  /** A later snapshot has every key of an earlier one, with at least its count. */
  predicate Grows(a: map<string, nat>, b: map<string, nat>) { forall k :: k in a ==> k in b && a[k] <= b[k] }

  /** So far as it has been copied, an unfinished snapshot is at least an earlier one. */
  predicate AtLeast(out: map<string, nat>, a: map<string, nat>) { forall k :: k in out && k in a ==> a[k] <= out[k] }

  predicate SnapsOk(s: State) {
    && (forall i :: 0 <= i < |s.snaps| ==> Below(s.snaps[i], s))
    && (forall i, j :: 0 <= i < j < |s.snaps| ==> Grows(s.snaps[i], s.snaps[j]))
    && (forall t, i :: 0 <= t < |s.threads| && s.threads[t].Copying? && 0 <= i < |s.snaps| ==>
        AtLeast(s.threads[t].out, s.snaps[i]))
  }

  predicate Balanced(s: State, key: string) { Value(s, key) + PendingAdds(s.threads, key) == At0(s.begun, key) }

  ghost predicate Inv(plus: Plus, s: State) {
    && CountsOk(s) && SnapsOk(s)
    && s.total == Total(plus, s.commits)
    && (forall t :: 0 <= t < |s.threads| ==> ThreadOk(plus, s, t))
    && (s.lock.Some? ==> s.lock.value < |s.threads|)
    && (forall key :: Balanced(s, key))
  }

  // ---- one step ----

  lemma {:induction false} PendingUpdate(ts: seq<Local>, t: nat, l: Local, key: string)
    requires t < |ts|
    ensures PendingAdds(ts[t := l], key)
         == PendingAdds(ts, key) - (if Pending(ts[t], key) then 1 else 0) + (if Pending(l, key) then 1 else 0)
  {
    hide Pending;
    if t > 0 {
      PendingUpdate(ts[1..], t - 1, l, key);
      assert ts[t := l][1..] == ts[1..][t - 1 := l];
    } else {
      assert ts[t := l][1..] == ts[1..];
    }
  }

  /** Counters are never replaced and never fall; history only grows. */
  predicate Keeps(s: State, r: State) {
    && (forall k :: k in s.counts ==> k in r.counts && r.counts[k] == s.counts[k])
    && |s.cells| <= |r.cells| && (forall i :: 0 <= i < |s.cells| ==> s.cells[i] <= r.cells[i])
    && |s.commits| <= |r.commits| && r.commits[..|s.commits|] == s.commits
    && |s.snaps| <= |r.snaps| && r.snaps[..|s.snaps|] == s.snaps
  }

  lemma StepKeeps(plus: Plus, s: State, step: Step)
    requires Enabled(s, step)
    requires step.action.Create? ==> s.threads[step.thread].key !in s.counts
    ensures Keeps(s, Apply(plus, s, step))
  {
    StepKeepsCounters(plus, s, step);
    StepKeepsHistory(plus, s, step);
    hide Apply, Enabled;
  }

  lemma StepKeepsCounters(plus: Plus, s: State, step: Step)
    requires Enabled(s, step)
    requires step.action.Create? ==> s.threads[step.thread].key !in s.counts
    ensures var r := Apply(plus, s, step);
            && (forall k :: k in s.counts ==> k in r.counts && r.counts[k] == s.counts[k])
            && |s.cells| <= |r.cells| && (forall i :: 0 <= i < |s.cells| ==> s.cells[i] <= r.cells[i])
  {
  }

  lemma StepKeepsHistory(plus: Plus, s: State, step: Step)
    requires Enabled(s, step)
    ensures var r := Apply(plus, s, step);
            && |s.commits| <= |r.commits| && r.commits[..|s.commits|] == s.commits
            && |s.snaps| <= |r.snaps| && r.snaps[..|s.snaps|] == s.snaps
  {
  }

  lemma StepCounts(plus: Plus, s: State, step: Step)
    requires Enabled(s, step) && CountsOk(s)
    requires step.action.Create? ==> s.threads[step.thread].key !in s.counts
    ensures CountsOk(Apply(plus, s, step))
  {
  }

  lemma ValueKept(s: State, r: State, key: string)
    requires CountsOk(s) && CountsOk(r) && Keeps(s, r) && key in s.counts
    ensures key in r.counts && Value(s, key) <= Value(r, key)
  {
  }

  lemma BelowKept(out: map<string, nat>, s: State, r: State)
    requires CountsOk(s) && CountsOk(r) && Keeps(s, r) && Below(out, s)
    ensures Below(out, r)
  {
    hide Value, CountsOk, Keeps;
    forall k | k in out ensures k in r.counts && out[k] <= Value(r, k) { ValueKept(s, r, k); }
  }

  /** What a step leaves to a thread that does not move. */
  lemma OtherSees(plus: Plus, s: State, step: Step, u: nat)
    requires Enabled(s, step) && u < |s.threads| && u != step.thread
    requires HoldsLock(s.threads[step.thread]) <==> s.lock == Some(step.thread)
    ensures var r := Apply(plus, s, step);
            && r.threads[u] == s.threads[u]
            && (r.lock == Some(u) <==> s.lock == Some(u)) && (s.lock == Some(u) ==> r.counts == s.counts)
  {
  }

  /** A thread that does not move stays consistent, whatever another thread does. */
  lemma OtherThread(plus: Plus, s: State, step: Step, u: nat)
    requires Enabled(s, step) && u < |s.threads| && u != step.thread
    requires ThreadOk(plus, s, step.thread) && ThreadOk(plus, s, u)
    requires CountsOk(s) && CountsOk(Apply(plus, s, step)) && Keeps(s, Apply(plus, s, step))
    ensures ThreadOk(plus, Apply(plus, s, step), u)
  {
    OtherSees(plus, s, step, u);
    hide CountsOk, Below, Total, Value, Enabled, Apply;
    var r, l := Apply(plus, s, step), s.threads[u];
    if l.Copying? { BelowKept(l.out, s, r); }
    if l.Swapping? { assert r.commits[..l.seen] == s.commits[..l.seen]; }
  }

  lemma CopiedValue(plus: Plus, s: State, step: Step)
    requires Enabled(s, step) && step.action.CopyOne?
    ensures s.cells[s.counts[step.action.key]] == Value(s, step.action.key) ==
            Value(Apply(plus, s, step), step.action.key)
    ensures forall k :: Value(s, k) == Value(Apply(plus, s, step), k)
  {
  }

  /** The thread that moves stays consistent. */
  lemma ThisThread(plus: Plus, s: State, step: Step)
    requires Enabled(s, step) && ThreadOk(plus, s, step.thread) && s.total == Total(plus, s.commits)
    requires CountsOk(s) && CountsOk(Apply(plus, s, step)) && Keeps(s, Apply(plus, s, step))
    ensures ThreadOk(plus, Apply(plus, s, step), step.thread)
  {
    hide CountsOk, Total, Value;
    if step.action.CopyOne? { CopiedValue(plus, s, step); }
    if step.action.Load? { assert s.commits[..|s.commits|] == s.commits; }
  }

  /** A finished snapshot dominates the earlier ones. */
  lemma FinishedGrows(s: State, out: map<string, nat>, earlier: map<string, nat>)
    requires out.Keys == s.counts.Keys && Below(earlier, s) && AtLeast(out, earlier)
    ensures Grows(earlier, out)
  {
  }

  lemma CopyAtLeast(s: State, out: map<string, nat>, key: string, earlier: map<string, nat>)
    requires AtLeast(out, earlier) && Below(earlier, s)
    ensures AtLeast(out[key := Value(s, key)], earlier)
  {
  }

  /** Which threads copy after a step, and what. */
  lemma StepCopying(plus: Plus, s: State, step: Step, u: nat)
    requires Enabled(s, step) && u < |s.threads| && Apply(plus, s, step).threads[u].Copying?
    ensures var r, a := Apply(plus, s, step), step.action;
            if u != step.thread then s.threads[u].Copying? && r.threads[u] == s.threads[u]
            else if a.CopyOne? then
                s.threads[u].Copying? && r.threads[u].out == s.threads[u].out[a.key := Value(s, a.key)]
            else r.threads[u].out == map[]
  {
  }

  lemma StepSnaps(plus: Plus, s: State, step: Step)
    requires Enabled(s, step) && SnapsOk(s)
    requires forall t :: 0 <= t < |s.threads| ==> ThreadOk(plus, s, t)
    requires CountsOk(s) && CountsOk(Apply(plus, s, step)) && Keeps(s, Apply(plus, s, step))
    ensures SnapsOk(Apply(plus, s, step))
  {
    var r, t := Apply(plus, s, step), step.thread;
    assert ThreadOk(plus, s, t);
    assert !step.action.FinishCopy? ==> r.snaps == s.snaps;
    OldSnaps(plus, s, step);
    if step.action.FinishCopy? {
      NewSnap(plus, s, step);
      forall u | 0 <= u < |r.threads| ensures !r.threads[u].Copying? { OneCopier(plus, s, step, u); }
    }
    hide CountsOk, Below, Grows, AtLeast, Keeps, ThreadOk, Apply, Enabled;
  }

  /** While a thread finishes its copy nobody else copies. */
  lemma OneCopier(plus: Plus, s: State, step: Step, u: nat)
    requires Enabled(s, step) && step.action.FinishCopy? && u < |s.threads|
    requires ThreadOk(plus, s, step.thread) && ThreadOk(plus, s, u)
    ensures !Apply(plus, s, step).threads[u].Copying?
  {
    hide Below, Total;
  }

  lemma OldSnaps(plus: Plus, s: State, step: Step)
    requires Enabled(s, step) && SnapsOk(s) && ThreadOk(plus, s, step.thread)
    requires CountsOk(s) && CountsOk(Apply(plus, s, step)) && Keeps(s, Apply(plus, s, step))
    ensures var r := Apply(plus, s, step);
            && (forall i :: 0 <= i < |s.snaps| ==> Below(s.snaps[i], r))
            && (forall u, i :: 0 <= u < |r.threads| && r.threads[u].Copying? && 0 <= i < |s.snaps| ==>
                AtLeast(r.threads[u].out, s.snaps[i]))
  {
    var r := Apply(plus, s, step);
    hide CountsOk, Below, Grows, Keeps, Value, Apply, Enabled, ThreadOk;
    forall i | 0 <= i < |s.snaps| ensures Below(s.snaps[i], r) { BelowKept(s.snaps[i], s, r); }
    forall u, i | 0 <= u < |r.threads| && r.threads[u].Copying? && 0 <= i < |s.snaps|
      ensures AtLeast(r.threads[u].out, s.snaps[i])
    {
      StepCopying(plus, s, step, u);
      if u == step.thread && step.action.CopyOne? { CopyAtLeast(s, s.threads[u].out, step.action.key, s.snaps[i]); }
    }
  }

  lemma NewSnap(plus: Plus, s: State, step: Step)
    requires Enabled(s, step) && step.action.FinishCopy? && SnapsOk(s) && ThreadOk(plus, s, step.thread)
    requires CountsOk(s) && CountsOk(Apply(plus, s, step)) && Keeps(s, Apply(plus, s, step))
    ensures var r, out := Apply(plus, s, step), s.threads[step.thread].out;
            && r.snaps == s.snaps + [out] && Below(out, r)
            && (forall i :: 0 <= i < |s.snaps| ==> Grows(s.snaps[i], out))
  {
    var r, out := Apply(plus, s, step), s.threads[step.thread].out;
    hide CountsOk, Below, Grows, Keeps, Value, AtLeast;
    BelowKept(out, s, r);
    forall i | 0 <= i < |s.snaps| ensures Grows(s.snaps[i], out) { FinishedGrows(s, out, s.snaps[i]); }
  }

  /** Called increments of a key are either added or pending, after every step. */
  lemma StepBalanced(plus: Plus, s: State, step: Step, key: string)
    requires Enabled(s, step) && CountsOk(s) && ThreadOk(plus, s, step.thread) && Balanced(s, key)
    ensures Balanced(Apply(plus, s, step), key)
  {
    StepValue(plus, s, step, key);
    StepPending(plus, s, step, key);
  }

  /** A step moves a key's pending adds only by calling or adding. */
  lemma StepPending(plus: Plus, s: State, step: Step, key: string)
    requires Enabled(s, step)
    ensures var r, a := Apply(plus, s, step), step.action;
            && PendingAdds(r.threads, key) == PendingAdds(s.threads, key)
               + (if a.CallInc? && a.key == key then 1 else 0)
               - (if a.Add? && s.threads[step.thread].key == key then 1 else 0)
            && At0(r.begun, key) == At0(s.begun, key) + (if a.CallInc? && a.key == key then 1 else 0)
  {
    var t, r := step.thread, Apply(plus, s, step);
    OwnPending(plus, s, step, key);
    hide PendingAdds, Pending, Apply;
    PendingUpdate(s.threads, t, r.threads[t], key);
  }

  lemma OwnPending(plus: Plus, s: State, step: Step, key: string)
    requires Enabled(s, step)
    ensures var r, a, t := Apply(plus, s, step), step.action, step.thread;
            && (if Pending(r.threads[t], key) then 1 else 0) == (if Pending(s.threads[t], key) then 1 else 0)
               + (if a.CallInc? && a.key == key then 1 else 0) - (if a.Add? && s.threads[t].key == key then 1 else 0)
            && At0(r.begun, key) == At0(s.begun, key) + (if a.CallInc? && a.key == key then 1 else 0)
  {
  }

  /** A step changes a key's count only by its own add. */
  lemma StepValue(plus: Plus, s: State, step: Step, key: string)
    requires Enabled(s, step) && CountsOk(s) && ThreadOk(plus, s, step.thread)
    ensures Value(Apply(plus, s, step), key)
         == Value(s, key) + if step.action.Add? && s.threads[step.thread].key == key then 1 else 0
  {
    hide Below, Total;
    if step.action.Add? { AddValue(s, s.threads[step.thread], key); }
  }

  /** Adding to the counter of one key leaves those of the others alone. */
  lemma AddValue(s: State, l: Local, key: string)
    requires CountsOk(s) && l.Adding? && l.cell < |s.cells| && l.key in s.counts && s.counts[l.key] == l.cell
    ensures Value(s.(cells := s.cells[l.cell := s.cells[l.cell] + 1]), key) == Value(s, key) + if l.key == key then 1
                                                                                               else 0
  {
  }

  lemma StepInv(plus: Plus, s: State, step: Step)
    requires Inv(plus, s) && Enabled(s, step)
    ensures Inv(plus, Apply(plus, s, step)) && Keeps(s, Apply(plus, s, step))
  {
    var r, t := Apply(plus, s, step), step.thread;
    assert ThreadOk(plus, s, t);
    StepKeeps(plus, s, step);
    StepCounts(plus, s, step);
    StepSnaps(plus, s, step);
    StepTotal(plus, s, step);
    forall u | 0 <= u < |r.threads| ensures ThreadOk(plus, r, u) {
      if u == t { ThisThread(plus, s, step); } else { OtherThread(plus, s, step, u); }
    }
    forall key ensures Balanced(r, key) { StepBalanced(plus, s, step, key); }
    hide CountsOk, SnapsOk, Keeps, ThreadOk, Balanced, Total, Apply, Enabled;
  }

  lemma StepTotal(plus: Plus, s: State, step: Step)
    requires Enabled(s, step) && s.total == Total(plus, s.commits)
    requires s.lock.Some? ==> s.lock.value < |s.threads|
    ensures var r := Apply(plus, s, step);
            r.total == Total(plus, r.commits) && (r.lock.Some? ==> r.lock.value < |s.threads|)
  {
    if step.action.Swap? { assert (s.commits + [s.threads[step.thread].cost])[..|s.commits|] == s.commits; }
  }

  // ---- every run ----

  lemma {:induction false} NothingPending(n: nat, key: string)
    ensures PendingAdds(seq(n, _ => Idle), key) == 0
  {
    if n > 0 {
      NothingPending(n - 1, key);
      assert seq(n, _ => Idle)[1..] == seq(n - 1, _ => Idle);
    }
  }

  lemma InitInv(plus: Plus, n: nat)
    ensures Inv(plus, Init(n))
  {
    forall key ensures Balanced(Init(n), key) {
      NothingPending(n, key);
      assert Init(n).threads == seq(n, _ => Idle);
    }
  }

  lemma {:induction false} RunInv(plus: Plus, n: nat, run: seq<Step>)
    requires After(plus, n, run).Some?
    ensures Inv(plus, After(plus, n, run).value)
  {
    hide Inv, Enabled, Apply, Init;
    if run == [] {
      InitInv(plus, n);
    } else {
      RunInv(plus, n, run[..|run| - 1]);
      StepInv(plus, After(plus, n, run[..|run| - 1]).value, run[|run| - 1]);
    }
  }

  /** No increment is ever lost or counted twice: for every key, in every interleaving, the stored count plus
      the adds still to come is the number of increments called; when all threads are idle, nothing is to come. */
  lemma NoLostUpdates(plus: Plus, n: nat, run: seq<Step>, key: string)
    requires After(plus, n, run).Some?
    ensures var s := After(plus, n, run).value;
            && Value(s, key) + PendingAdds(s.threads, key) == At0(s.begun, key)
            && ((forall t :: 0 <= t < |s.threads| ==> s.threads[t] == Idle) ==> Value(s, key) == At0(s.begun, key))
  {
    hide After, CountsOk, SnapsOk, ThreadOk, Total, PendingAdds;
    RunInv(plus, n, run);
    var s := After(plus, n, run).value;
    assert Balanced(s, key);
    if forall t :: 0 <= t < |s.threads| ==> s.threads[t] == Idle {
      NothingPending(|s.threads|, key);
      assert s.threads == seq(|s.threads|, _ => Idle);
    }
  }

  /** The cost total is the committed costs, each added once, in the order of their commits. */
  lemma {:induction false} CostsAddUp(plus: Plus, n: nat, run: seq<Step>)
    requires After(plus, n, run).Some?
    ensures After(plus, n, run).value.total == Total(plus, After(plus, n, run).value.commits)
  {
    hide After, CountsOk, SnapsOk, ThreadOk, Total, Balanced;
    RunInv(plus, n, run);
  }

  /** A swap fails only if another cost was committed since its load, so some thread always makes progress. */
  lemma FailedSwapMeansProgress(plus: Plus, n: nat, run: seq<Step>, t: nat)
    requires After(plus, n, run).Some? && t < |After(plus, n, run).value.threads|
    requires var s := After(plus, n, run).value;
             s.threads[t].Swapping? && s.total != s.threads[t].old_
    ensures After(plus, n, run).value.threads[t].seen < |After(plus, n, run).value.commits|
  {
    hide After, CountsOk, SnapsOk, Total, Balanced;
    RunInv(plus, n, run);
    var s := After(plus, n, run).value;
    assert ThreadOk(plus, s, t);
    assert s.commits[..|s.commits|] == s.commits;
  }

  /** Snapshots never go back, and never run ahead of the counters. */
  lemma SnapshotsGrow(plus: Plus, n: nat, run: seq<Step>)
    requires After(plus, n, run).Some?
    ensures var s := After(plus, n, run).value;
            && (forall i, j :: 0 <= i < j < |s.snaps| ==> Grows(s.snaps[i], s.snaps[j]))
            && (forall i :: 0 <= i < |s.snaps| ==> Below(s.snaps[i], s))
  {
    hide After, CountsOk, ThreadOk, Total, Balanced, Grows, Below, AtLeast;
    RunInv(plus, n, run);
  }

  /** However a run goes on, a stored counter stays the same counter and does not fall. */
  lemma {:induction false} CountersAreKept(plus: Plus, n: nat, run: seq<Step>, more: seq<Step>)
    requires After(plus, n, run + more).Some?
    ensures After(plus, n, run).Some? && Keeps(After(plus, n, run).value, After(plus, n, run + more).value)
    decreases |more|
  {
    hide Inv, Enabled, Apply, Init;
    if more == [] {
      assert run + more == run;
    } else {
      assert (run + more)[..|run + more| - 1] == run + more[..|more| - 1];
      CountersAreKept(plus, n, run, more[..|more| - 1]);
      RunInv(plus, n, run + more[..|more| - 1]);
      StepInv(plus, After(plus, n, run + more[..|more| - 1]).value, more[|more| - 1]);
    }
  }

  /** The map is only touched by one thread at a time. */
  lemma OneHolder(plus: Plus, n: nat, run: seq<Step>, t: nat, u: nat)
    requires After(plus, n, run).Some? && t < |After(plus, n, run).value.threads| &&
             u < |After(plus, n, run).value.threads|
    requires HoldsLock(After(plus, n, run).value.threads[t]) && HoldsLock(After(plus, n, run).value.threads[u])
    ensures t == u
  {
    hide After, CountsOk, SnapsOk, Total, Balanced, HoldsLock;
    RunInv(plus, n, run);
    assert ThreadOk(plus, After(plus, n, run).value, t) && ThreadOk(plus, After(plus, n, run).value, u);
  }
}
