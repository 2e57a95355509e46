/** Comparing two sets of findings, and filtering by a baseline. */
module Diff {
  import opened Findings

  datatype DiffResult = DiffResult(added: seq<Finding>, resolved: seq<Finding>, matched: nat)

  /** The findings whose occurrence number exceeds the number of occurrences in the other list. */
  function Excess(fs: seq<Finding>, other: seq<Finding>): seq<Finding> {
    if fs == [] then []
    else
      var n := |fs| - 1;
      var fp := Fingerprint(fs[n]);
      Excess(fs[..n], other) + if Prints(fs)[fp] > Prints(other)[fp] then [fs[n]] else []
  }

  /** For every fingerprint the excess holds max(0, here - there) occurrences. */
  lemma {:induction false} ExcessPrints(fs: seq<Finding>, other: seq<Finding>)
    ensures Prints(Excess(fs, other)) == Prints(fs) - Prints(other)
  {
    hide Fingerprint;
    if fs != [] {
      var n := |fs| - 1;
      ExcessPrints(fs[..n], other);
      OneMore(Prints(fs[..n]), Prints(other), Fingerprint(fs[n]));
      LastPrint(Excess(fs[..n], other), fs[n]);
    }
  }

  lemma OneMore<T>(a: multiset<T>, b: multiset<T>, x: T)
    ensures (a + multiset{x}) - b == if (a + multiset{x})[x] > b[x] then (a - b) + multiset{x} else a - b
  {
  }

  lemma LastPrint(fs: seq<Finding>, f: Finding)
    ensures Prints(fs + [f]) == Prints(fs) + multiset{Fingerprint(f)} && fs + [] == fs
  {
    assert (fs + [f])[..|fs|] == fs;
  }

  lemma {:induction false} ExcessSubsequence(fs: seq<Finding>, other: seq<Finding>)
    ensures Subsequence(Excess(fs, other), fs)
  {
    hide Fingerprint, Prints;
    if fs != [] {
      var n := |fs| - 1;
      ExcessSubsequence(fs[..n], other);
      var before := Excess(fs[..n], other);
      if Prints(fs)[Fingerprint(fs[n])] > Prints(other)[Fingerprint(fs[n])] {
        assert (before + [fs[n]])[..|before|] == before;
      } else {
        assert before + [] == before;
      }
    }
  }

  function CountsOf(fs: seq<Finding>): (m: map<string, nat>)
    ensures forall fp :: fp in m <==> fp in Prints(fs)
    ensures forall fp :: fp in m ==> m[fp] == Prints(fs)[fp]
  {
    if fs == [] then map[]
    else
      var before := CountsOf(fs[..|fs| - 1]);
      var fp := Fingerprint(fs[|fs| - 1]);
      before[fp := if fp in before then before[fp] + 1 else 1]
  }

  /** One occurrence more in a table of counters. */
  function Bump(m: map<string, nat>, fp: string): map<string, nat> {
    m[fp := if fp in m then m[fp] + 1 else 1]
  }

  function At(m: map<string, nat>, fp: string): nat { if fp in m then m[fp] else 0 }

  method CountFingerprints(fs: seq<Finding>) returns (counts: map<string, nat>)
    ensures counts == CountsOf(fs)
  {
    counts := map[];
    for k := 0 to |fs|
      invariant counts == CountsOf(fs[..k])
    {
      CountsStep(fs, k);
      counts := Bump(counts, Fingerprint(fs[k]));
    }
    assert fs[..|fs|] == fs;
  }

  lemma CountsStep(fs: seq<Finding>, k: nat)
    requires k < |fs|
    ensures CountsOf(fs[..k + 1]) == Bump(CountsOf(fs[..k]), Fingerprint(fs[k]))
  {
    hide Prints, Fingerprint;
    assert fs[..k + 1][..k] == fs[..k];
  }

  lemma AtCounts(fs: seq<Finding>, fp: string)
    ensures At(CountsOf(fs), fp) == Prints(fs)[fp]
  {
    hide CountsOf, Prints;
    assert fp in Prints(fs) <==> fp in CountsOf(fs);
  }

  /** One more finding is excess if its counter passes the other side's. */
  lemma ExcessStep(fs: seq<Finding>, k: nat, other: seq<Finding>)
    requires k < |fs|
    ensures var fp := Fingerprint(fs[k]);
            Excess(fs[..k + 1], other)
            == Excess(fs[..k], other)
               + if At(CountsOf(fs[..k + 1]), fp) > At(CountsOf(other), fp) then [fs[k]] else []
  {
    hide CountsOf, Prints, Fingerprint, At;
    assert fs[..k + 1][..k] == fs[..k];
    AtCounts(fs[..k + 1], Fingerprint(fs[k]));
    AtCounts(other, Fingerprint(fs[k]));
  }

  /** The loop shared by the new and the resolved findings. */
  method CollectExcess(fs: seq<Finding>, otherCounts: map<string, nat>, ghost other: seq<Finding>)
    returns (out: seq<Finding>)
    requires otherCounts == CountsOf(other)
    ensures out == Excess(fs, other)
  {
    hide CountsOf, Excess, At;
    NothingYet(other);
    out := [];
    var seen: map<string, nat> := map[];
    assert fs[..0] == [];
    for k := 0 to |fs|
      invariant seen == CountsOf(fs[..k]) && out == Excess(fs[..k], other)
    {
      CountsStep(fs, k);
      ExcessStep(fs, k, other);
      var fp := Fingerprint(fs[k]);
      seen := Bump(seen, fp);
      if At(seen, fp) > At(otherCounts, fp) {
        out := out + [fs[k]];
      }
    }
    assert fs[..|fs|] == fs;
  }

  lemma NothingYet(other: seq<Finding>)
    ensures CountsOf([]) == map[] && Excess([], other) == []
  {
  }

  /** The sum runs over the fingerprints in an arbitrary order. */
  method SumMatches(oldCounts: map<string, nat>, newCounts: map<string, nat>, ghost before: seq<Finding>,
      ghost after: seq<Finding>)
    returns (matched: nat)
    requires oldCounts == CountsOf(before) && newCounts == CountsOf(after)
    ensures matched == |Prints(before) * Prints(after)|
  {
    matched := 0;
    var keys := oldCounts.Keys;
    ghost var left := Prints(before) * Prints(after);
    while keys != {}
      invariant keys <= oldCounts.Keys
      invariant matched + |left| == |Prints(before) * Prints(after)|
      invariant forall fp :: left[fp] == if fp in keys then (Prints(before) * Prints(after))[fp] else 0
      decreases keys
    {
      var fp :| fp in keys;
      keys := keys - {fp};
      var n := At(newCounts, fp);
      matched := matched + if n < oldCounts[fp] then n else oldCounts[fp];
      left := left[fp := 0];
    }
    assert left == multiset{};
  }

  lemma DifferenceSize<T>(a: multiset<T>, b: multiset<T>)
    ensures |a - b| + |b * a| == |a| && |a - b| + |a * b| == |a|
  {
    assert a * b == b * a;
  }

  /** New and resolved findings are the two excesses, and every finding of either side is new, resolved or matched. */
  method DiffFindings(before: seq<Finding>, after: seq<Finding>) returns (r: DiffResult)
    ensures r.added == Excess(after, before) && r.resolved == Excess(before, after)
    ensures Prints(r.added) == Prints(after) - Prints(before) && Prints(r.resolved) == Prints(before) - Prints(after)
    ensures Subsequence(r.added, after) && Subsequence(r.resolved, before)
    ensures r.matched == |Prints(before) * Prints(after)|
    ensures |r.added| + r.matched == |after| && |r.resolved| + r.matched == |before|
  {
    var oldCounts := CountFingerprints(before);
    var newCounts := CountFingerprints(after);
    var added := CollectExcess(after, oldCounts, before);
    var resolved := CollectExcess(before, newCounts, after);
    var matched := SumMatches(oldCounts, newCounts, before, after);
    hide Subsequence, Excess, Prints;
    ExcessPrints(after, before);
    ExcessPrints(before, after);
    ExcessSubsequence(after, before);
    ExcessSubsequence(before, after);
    DifferenceSize(Prints(after), Prints(before));
    DifferenceSize(Prints(before), Prints(after));
    r := DiffResult(added, resolved, matched);
  }

  // ---- baselines ----

  function Survivors(fs: seq<Finding>, baseline: set<string>): seq<Finding> {
    if fs == [] then []
    else
      var n := |fs| - 1;
      Survivors(fs[..n], baseline) + if Fingerprint(fs[n]) in baseline then [] else [fs[n]]
  }

  method BaselineFingerprints(fs: seq<Finding>) returns (baseline: set<string>)
    ensures forall fp :: fp in baseline <==> fp in Prints(fs)
  {
    baseline := {};
    for k := 0 to |fs|
      invariant forall fp :: fp in baseline <==> fp in Prints(fs[..k])
    {
      assert fs[..k + 1][..k] == fs[..k];
      baseline := baseline + {Fingerprint(fs[k])};
    }
    assert fs[..|fs|] == fs;
  }

  /** An empty baseline returns its input without looking at it. */
  method FilterBaseline(fs: seq<Finding>, baseline: set<string>) returns (out: seq<Finding>, suppressed: nat)
    ensures out == Survivors(fs, baseline) && suppressed + |out| == |fs|
  {
    if |baseline| == 0 {
      NothingSuppressed(fs);
      return fs, 0;
    }
    out, suppressed := [], 0;
    for k := 0 to |fs|
      invariant out == Survivors(fs[..k], baseline) && suppressed + |out| == k
    {
      assert fs[..k + 1][..k] == fs[..k];
      if Fingerprint(fs[k]) in baseline {
        suppressed := suppressed + 1;
      } else {
        out := out + [fs[k]];
      }
    }
    assert fs[..|fs|] == fs;
  }

  lemma {:induction false} NothingSuppressed(fs: seq<Finding>)
    ensures Survivors(fs, {}) == fs
  {
    if fs != [] {
      NothingSuppressed(fs[..|fs| - 1]);
    }
  }

  /** What a baseline of the old findings lets through is always among the new findings of the diff, in order. */
  lemma {:induction false} SurvivorsAreNew(after: seq<Finding>, before: seq<Finding>, baseline: set<string>)
    requires forall fp :: fp in baseline <==> fp in Prints(before)
    ensures Subsequence(Survivors(after, baseline), Excess(after, before))
  {
    if after != [] {
      var n := |after| - 1;
      SurvivorsAreNew(after[..n], before, baseline);
      var s, e := Survivors(after[..n], baseline), Excess(after[..n], before);
      var last := after[n];
      if Prints(after)[Fingerprint(last)] > Prints(before)[Fingerprint(last)] {
        assert (e + [last])[..|e|] == e;
        if Fingerprint(last) !in baseline {
          assert (s + [last])[..|s|] == s;
        } else {
          assert s + [] == s;
        }
      } else {
        assert e + [] == e && s + [] == s;
      }
    }
  }
}
