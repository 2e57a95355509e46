/** Analyzers of one phase that read each other's output. */
module Races {
  import opened Bytes
  import opened Pipeline
  import opened Schedules
  import opened Sessions

  // ---- analyzers that do not look, and analyzers that do ----

  /** Two views that tell the same of the other phase. */
  predicate SameOutside(team: Team, i: nat, v: View, w: View)
    requires i < |team|
  {
    |v| == |w| == |team| && forall j :: 0 <= j < |team| && !SameGroup(team, i, j) ==> v[j] == w[j]
  }

  /** Analyzer i does not look at what its own phase leaves. */
  ghost predicate BlindAt(team: Team, i: nat)
    requires i < |team|
  {
    forall v: View, w: View :: SameOutside(team, i, v, w) ==> ResultOf(team[i], v) == ResultOf(team[i], w)
  }

  /** No analyzer does. */
  ghost predicate Blind(team: Team) { forall i: nat :: i < |team| ==> BlindAt(team, i) }

  /** If no analyzer looks at its own phase, the interleaving does not matter for any number of workers. */
  lemma BlindIsSteady(c: Config)
    requires Blind(c.analyzers)
    ensures Steady(c)
  {
    hide ResultOf;
    var team := c.analyzers;
    forall i: nat, v: View | i < |team| && Near(team, Limit(c), i, v)
        ensures ResultOf(team[i], v) == Reference(team, i) {
      assert BlindAt(team, i) && SameOutside(team, i, v, ReferenceView(team, i));
    }
  }

  /** Without fail-fast and cancellation the slot of a blind analyzer of the first phase can hold its reference only. */
  lemma BlindSlots(c: Config, steps: seq<Step>, i: nat)
    requires !c.failFast && After(c, steps).Some? && !After(c, steps).value.cancelled
    requires i < |c.analyzers| && !c.analyzers[i].scanner && BlindAt(c.analyzers, i)
    ensures var s := After(c, steps).value;
            |s.slots| == |c.analyzers| && (s.slots[i].Some? ==> s.slots[i] == Some(Reference(c.analyzers, i)))
  {
    hide After, ResultOf;
    SlotsAreResults(c, steps, i);
    var team, slot := c.analyzers, After(c, steps).value.slots[i];
    if slot.Some? {
      var view :| Possible(team, i, view) && slot.value == ResultOf(team[i], view);
      assert SameOutside(team, i, view, ReferenceView(team, i));
    }
  }

  lemma {:induction false} CountSingle(team: Team, scanner: bool, i: nat, hi: nat)
    requires hi <= |team|
    ensures CountIn(team, scanner, {i}, 0, hi) <= if i < hi then 1 else 0
  {
    if hi > 0 { CountSingle(team, scanner, i, hi - 1); }
  }

  /** What analyzer j sees with one worker, but for the files of i. */
  function Without(team: Team, i: nat, j: nat): View
    requires i < |team| && j < |team|
  {
    ReferenceView(team, j)[i := Absent]
  }

  lemma OneMissingIsNear(c: Config, i: nat, j: nat)
    requires Limit(c) > 1 && i < j < |c.analyzers| && SameGroup(c.analyzers, i, j)
    ensures Near(c.analyzers, Limit(c), j, Without(c.analyzers, i, j))
  {
    hide Reference, ResultOf, Limit;
    var team, v := c.analyzers, Without(c.analyzers, i, j);
    CountGrows(team, team[j].scanner, NotWhole(v), {i}, 0, j);
    CountSingle(team, team[j].scanner, i, j);
  }

  /** With two workers or more, an analyzer that returns something else while an earlier one of its
      phase has left nothing yet makes the configuration unsteady. */
  lemma ReadersRace(c: Config, i: nat, j: nat)
    requires Limit(c) > 1 && i < j < |c.analyzers| && SameGroup(c.analyzers, i, j)
    requires ResultOf(c.analyzers[j], Without(c.analyzers, i, j)) != Reference(c.analyzers, j)
    ensures !Steady(c)
  {
    hide Reference, ResultOf, Limit, Near;
    OneMissingIsNear(c, i, j);
  }

  /** Analyzer j finishes over what there is to see when it has just begun. */
  lemma FinishAtOnce(c: Config, steps: seq<Step>, s: State, j: nat) returns (longer: seq<Step>)
    requires Stands(c, steps, s) && j < |s.status| && |s.slots| == |s.status| && s.status[j].Running?
    ensures Undisturbed(c, longer) && |After(c, longer).value.slots| == |c.analyzers| == |s.status|
    ensures After(c, longer).value.slots[j] == Some(ResultOf(c.analyzers[j], Snapshot(s, j)))
  {
    hide ResultOf, Limit, After, Active, Snapshot, Visible, TaskOk, StartOk, NoneRefused, Directory;
    var last := LastLook(c, s, j);
    var r;
    longer, r := Then(c, steps, s, last);
    longer, r := Then(c, longer, r, Write(j));
    var rest := EveryScheduleCompletes(c, longer);
    SlotsStay(c, longer, rest);
    longer := longer + rest;
  }

  /** With two workers or more, an analyzer of the first phase may overlook any single one before it, whatever the
      others do. If the others of the phase are blind, it then sees of them what it sees with one worker. */
  lemma Overlooks(c: Config, i: nat, j: nat) returns (steps: seq<Step>, view: View)
    requires !c.failFast && Limit(c) > 1 && i < j < |c.analyzers| && !c.analyzers[i].scanner && !c.analyzers[j].scanner
    ensures Undisturbed(c, steps) && |After(c, steps).value.slots| == |c.analyzers| == |view| && view[i] == Absent
    ensures After(c, steps).value.slots[j] == Some(ResultOf(c.analyzers[j], view))
    ensures (forall k: nat :: k < |c.analyzers| && k != j && !c.analyzers[k].scanner ==> BlindAt(c.analyzers, k)) ==>
              view == Without(c.analyzers, i, j)
  {
    hide Reference, ResultOf, Limit, After, Inv, Active, Near, BlindAt;
    var team, v := c.analyzers, Without(c.analyzers, i, j);
    OneMissingIsNear(c, i, j);
    var begun, s := BeginOver(c, j, v);
    view := Snapshot(s, j);
    assert Begun(c, s, j, v, i);
    if forall k: nat :: k < |team| && k != j && !team[k].scanner ==> BlindAt(team, k) {
      forall k: nat | k < |team| ensures view[k] == v[k] {
        if k != j {
          assert Begun(c, s, j, v, k);
          if s.slots[k].Some? { BlindSlots(c, begun, k); }
        }
      }
    }
    steps := FinishAtOnce(c, begun, s, j);
  }

  /** An empty session directory. */
  function NothingYet(team: Team): View { seq(|team|, _ => Absent) }

  lemma {:induction false} CountBelow(team: Team, scanner: bool, open: set<nat>, hi: nat)
    requires hi <= |team|
    ensures CountIn(team, scanner, open, 0, hi) <= hi
  {
    if hi > 0 { CountBelow(team, scanner, open, hi - 1); }
  }

  /** An analyzer of the first phase with fewer analyzers before it than there are workers may find the session
      directory empty, and then reports what it returns over that. */
  lemma FirstLook(c: Config, j: nat) returns (steps: seq<Step>)
    requires !c.failFast && j < |c.analyzers| && j < Limit(c) && !c.analyzers[j].scanner
    ensures Undisturbed(c, steps) && |After(c, steps).value.slots| == |c.analyzers|
    ensures After(c, steps).value.slots[j] == Some(ResultOf(c.analyzers[j], NothingYet(c.analyzers)))
  {
    hide Reference, ResultOf, Limit, After, Inv, Active;
    var team, v := c.analyzers, NothingYet(c.analyzers);
    CountBelow(team, false, NotWhole(v), j);
    assert Near(team, Limit(c), j, v);
    hide CountIn;
    var s, rest;
    steps, s := BeginOver(c, j, v);
    forall k: nat | k < |team| && k != j ensures s.status[j].start[k] == Nothing { assert Begun(c, s, j, v, k); }
    assert Visible(s, j, s.status[j].start, v);
    steps, s := Then(c, steps, s, Finish(j, v, ResultOf(team[j], v)));
    steps, s := Then(c, steps, s, Write(j));
    rest := EveryScheduleCompletes(c, steps);
    SlotsStay(c, steps, rest);
    steps := steps + rest;
  }

  /** So a reader of the first phase among blind ones has two results, and the others one each. */
  lemma ReaderHasTwoResults(c: Config, i: nat, j: nat) returns (a: seq<Step>, b: seq<Step>)
    requires !c.failFast && Limit(c) > 1 && i < j < |c.analyzers| && !c.analyzers[i].scanner && !c.analyzers[j].scanner
    requires forall k: nat :: k < |c.analyzers| && k != j && !c.analyzers[k].scanner ==> BlindAt(c.analyzers, k)
    ensures Undisturbed(c, a) && Undisturbed(c, b)
    ensures var team, p, q := c.analyzers, After(c, a).value.slots, After(c, b).value.slots;
            && |p| == |q| == |team|
            && p[j] == Some(Reference(team, j)) && q[j] == Some(ResultOf(team[j], Without(team, i, j)))
            && forall k: nat :: k < |team| && k != j && !team[k].scanner ==> p[k] == q[k] == Some(Reference(team, k))
  {
    hide Reference, ResultOf, Limit, After, BlindAt;
    var view;
    a := ReferenceOccurs(c);
    b, view := Overlooks(c, i, j);
    forall k: nat | k < |c.analyzers| && k != j && !c.analyzers[k].scanner
      ensures After(c, b).value.slots[k] == Some(Reference(c.analyzers, k))
    {
      BlindSlots(c, b, k);
      EachRunsOnce(c, b, k);
    }
  }

  // ---- a pair that is registered by default ----

  /** The version that jadx's tree tells of a library, and what stands in its place without a tree. */
  const VERSION: Finding := 7
  const UNKNOWN_VERSION: Finding := 0

  const JADX := Analyzer("jadx", false, (view: View) => Returned("jadx", 1, [], VERSION, None))

  /** The library inventory takes the version from jadx's tree if there is one to read. */
  const SDK := Analyzer("sdk", false, (view: View) =>
    Returned("sdk", 2, [if |view| > 0 && view[0].Whole? then view[0].files else UNKNOWN_VERSION], 0, None))

  /** Both read the target themselves, so both belong to the first phase; jadx is registered first. */
  function JadxAndSdk(workers: int, between: seq<Analyzer>, behind: seq<Analyzer>): Config {
    Config([JADX] + between + [SDK] + behind, workers, false, false)
  }

  lemma {:induction false} FindingsGrow(slots: seq<Option<Run>>, n: nat)
    requires n <= |slots|
    ensures Collected(slots[..n]).findings <= Collected(slots).findings
    decreases |slots|
  {
    if n == |slots| {
      assert slots[..n] == slots;
    } else {
      var m := |slots| - 1;
      FindingsGrow(slots[..m], n);
      assert slots[..m][..n] == slots[..n];
    }
  }

  /** The findings begin with those of the first n + 1 slots. */
  lemma FindingsBegin(slots: seq<Option<Run>>, n: nat)
    requires n < |slots| && slots[n].Some? && slots[n].value.name != ""
    ensures Collected(slots[..n]).findings + slots[n].value.findings <= Collected(slots).findings
  {
    FindingsGrow(slots, n + 1);
    assert slots[..n + 1][..n] == slots[..n];
  }

  /** Some undisturbed schedule ends with findings that begin like this. */
  ghost predicate MayReport(c: Config, findings: seq<Finding>) {
    exists steps :: Undisturbed(c, steps) && findings <= ReportOf(c, After(c, steps).value).session.findings
  }

  /** With two workers or more, one and the same run of jadx and the library inventory, with blind analyzers of the
      first phase between and behind them and any scanners behind, may report the version or miss it. */
  lemma JadxRacesSdk(workers: int, between: seq<Analyzer>, behind: seq<Analyzer>) returns (before: seq<Finding>)
    requires Limit(JadxAndSdk(workers, between, behind)) > 1 && forall a :: a in between ==> !a.scanner
    requires var team := JadxAndSdk(workers, between, behind).analyzers;
             forall k: nat :: k < |team| && k != 0 && k != |between| + 1 && !team[k].scanner ==> BlindAt(team, k)
    ensures var c := JadxAndSdk(workers, between, behind);
            !Steady(c) && MayReport(c, before + [VERSION]) && MayReport(c, before + [UNKNOWN_VERSION])
  {
    var c, j := JadxAndSdk(workers, between, behind), |between| + 1;
    var team := c.analyzers;
    assert team[0] == JADX && team[j] == SDK && BlindAt(team, 0);
    assert ReferenceView(team, j)[0] == Whole(Reference(team, 0).files);
    assert Reference(team, j) == Run("sdk", 2, [VERSION], 0, None);
    assert ResultOf(team[j], Without(team, 0, j)) == Run("sdk", 2, [UNKNOWN_VERSION], 0, None);
    hide ResultOf, Reference, Limit, After, BlindAt, Steady, Undisturbed, Collected, JadxAndSdk;
    ReadersRace(c, 0, j);
    var a, b := ReaderHasTwoResults(c, 0, j);
    var p, q := After(c, a).value.slots, After(c, b).value.slots;
    FirstOfPhase(between, behind, workers, j);
    assert p[..j] == q[..j];
    before := Collected(p[..j]).findings;
    FindingsBegin(p, j);
    FindingsBegin(q, j);
  }

  lemma FirstOfPhase(between: seq<Analyzer>, behind: seq<Analyzer>, workers: int, j: nat)
    requires j == |between| + 1 && forall a :: a in between ==> !a.scanner
    ensures forall k: nat :: k < j ==> !JadxAndSdk(workers, between, behind).analyzers[k].scanner
  {
    var team := JadxAndSdk(workers, between, behind).analyzers;
    forall k: nat | k < j ensures !team[k].scanner {
      if k > 0 { assert team[k] == between[k - 1]; }
    }
  }

  /** Reads the target only. */
  ghost predicate Oblivious(a: Analyzer) { forall v, w :: ResultOf(a, v) == ResultOf(a, w) }

  /** The default list for Android packages, with four workers: jadx, apksigner, elf, anti-analysis, repack, sdk and two
      scanners. The native libraries are read from the archive if it has any. */
  lemma DefaultListRaces(apksigner: Analyzer, elf: Analyzer, antiAnalysis: Analyzer, repack: Analyzer,
      gitleaks: Analyzer, semgrep: Analyzer) returns (before: seq<Finding>)
    requires forall a :: a in [apksigner, elf, antiAnalysis, repack] ==> !a.scanner && Oblivious(a)
    requires gitleaks.scanner && semgrep.scanner
    ensures var c := JadxAndSdk(0, [apksigner, elf, antiAnalysis, repack], [gitleaks, semgrep]);
            !Steady(c) && MayReport(c, before + [VERSION]) && MayReport(c, before + [UNKNOWN_VERSION])
  {
    hide ResultOf, Steady, MayReport;
    var between := [apksigner, elf, antiAnalysis, repack];
    var team := JadxAndSdk(0, between, [gitleaks, semgrep]).analyzers;
    forall k: nat | k < |team| && k != 0 && k != 5 && !team[k].scanner ensures BlindAt(team, k) {
      assert team[k] in between;
      assert Oblivious(team[k]);
    }
    before := JadxRacesSdk(0, between, [gitleaks, semgrep]);
  }
}
