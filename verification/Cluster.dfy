/** Deduplication, clustering, and spreading a representative's verdict over its cluster.

    Findings are updated in place. The order in which groups are visited and the order of equal
    elements after sorting are left open, as they are in the program; the contracts hold for all of them.
 */
module Cluster {
  import opened Bytes
  import opened Findings
  import opened Order

  /** How findings are keyed: for deduplication, for clustering, and the id of a cluster. */
  datatype Keys = Keys(dedup: Finding -> string, signature: Finding -> string, clusterID: string -> string)

  // ---- deduplication ----

  /** No earlier finding has the key of number k. */
  predicate First(keys: Keys, fs: seq<Finding>, k: nat)
    requires k < |fs|
  {
    forall j :: 0 <= j < k ==> keys.dedup(fs[j]) != keys.dedup(fs[k])
  }

  /** The first finding of each key, in order. */
  function Deduped(keys: Keys, fs: seq<Finding>): seq<Finding> {
    if fs == [] then []
    else
      var n := |fs| - 1;
      Deduped(keys, fs[..n]) + if First(keys, fs, n) then [fs[n]] else []
  }

  /** Exactly the first finding of each key remains, no key remains twice, and the order is kept. */
  lemma {:induction false} DedupedKeys(keys: Keys, fs: seq<Finding>)
    ensures forall k :: 0 <= k < |fs| && First(keys, fs, k) ==> fs[k] in Deduped(keys, fs)
    ensures forall g :: g in Deduped(keys, fs) ==> g in fs
    ensures forall i, j :: 0 <= i < j < |Deduped(keys, fs)| ==>
            keys.dedup(Deduped(keys, fs)[i]) != keys.dedup(Deduped(keys, fs)[j])
  {
    if fs != [] {
      var n, prefix := |fs| - 1, fs[..|fs| - 1];
      var before := Deduped(keys, prefix);
      DedupedKeys(keys, prefix);
      forall k | 0 <= k < n && First(keys, fs, k) ensures fs[k] in before {
        assert prefix[k] == fs[k] && First(keys, prefix, k);
      }
      if First(keys, fs, n) { KeyIsNew(keys, fs, before); }
      hide First;
    }
  }

  lemma KeyIsNew(keys: Keys, fs: seq<Finding>, before: seq<Finding>)
    requires fs != [] && First(keys, fs, |fs| - 1) && forall g :: g in before ==> g in fs[..|fs| - 1]
    ensures forall i :: 0 <= i < |before| ==> keys.dedup(before[i]) != keys.dedup(fs[|fs| - 1])
  {
    forall i | 0 <= i < |before| ensures keys.dedup(before[i]) != keys.dedup(fs[|fs| - 1]) {
      assert before[i] in before;
      var k :| 0 <= k < |fs| - 1 && fs[..|fs| - 1][k] == before[i];
      assert fs[k] == before[i];
    }
  }

  lemma {:induction false} DedupedOrder(keys: Keys, fs: seq<Finding>)
    ensures Subsequence(Deduped(keys, fs), fs)
  {
    if fs != [] {
      var before, last := Deduped(keys, fs[..|fs| - 1]), fs[|fs| - 1];
      DedupedOrder(keys, fs[..|fs| - 1]);
      assert (before + [last])[..|before|] == before && before + [] == before;
    }
  }

  method Dedup(keys: Keys, fs: seq<Finding>) returns (result: seq<Finding>)
    ensures result == Deduped(keys, fs)
  {
    var seen: set<string> := {};
    result := [];
    for k := 0 to |fs|
      invariant result == Deduped(keys, fs[..k])
      invariant forall key :: key in seen <==> exists j :: 0 <= j < k && keys.dedup(fs[j]) == key
    {
      assert fs[..k + 1][..k] == fs[..k];
      var key := keys.dedup(fs[k]);
      assert First(keys, fs[..k + 1], k) <==> key !in seen;
      if key !in seen {
        seen := seen + {key};
        result := result + [fs[k]];
      }
    }
    assert fs[..|fs|] == fs;
  }

  // ---- order of locations ----

  /** File first, then line. */
  predicate Before(a: Location, b: Location) {
    if a.file != b.file then StringLess(a.file, b.file) else a.line < b.line
  }

  lemma BeforeOrder(a: Location, b: Location, c: Location)
    ensures !Before(b, a) && !Before(c, b) ==> !Before(c, a)
    ensures !(Before(a, b) && Before(b, a))
  {
    StringTotal(a.file, b.file);
    StringTotal(b.file, c.file);
    StringTotal(a.file, c.file);
    if StringLess(a.file, b.file) && StringLess(b.file, c.file) { StringTransitive(a.file, b.file, c.file); }
  }

  // ---- clustering ----

  /** The signature of each finding. */
  function Signatures(keys: Keys, fs: seq<Finding>): (r: seq<string>)
    ensures |r| == |fs|
  {
    seq(|fs|, i requires 0 <= i < |fs| => keys.signature(fs[i]))
  }

  /** Clustering touches three fields: the cluster id, and the two marks, which agree. */
  predicate Marked(id: string, before: Finding, after: Finding) {
    after == before.(clusterID := id, representative := after.representative, needsTriage := after.representative)
  }

  /** Finding i of the class is first by location among the class. */
  predicate Least(sigs: seq<string>, fs: seq<Finding>, i: nat)
    requires |sigs| == |fs| && i < |fs|
  {
    forall j :: 0 <= j < |fs| && sigs[j] == sigs[i] ==> !Before(fs[j].location, fs[i].location)
  }

  /** Some finding with the signature of number i is its representative. */
  ghost predicate Represented(sigs: seq<string>, after: seq<Finding>, i: nat)
    requires |sigs| == |after| && i < |after|
  {
    exists j :: 0 <= j < |after| && sigs[j] == sigs[i] && after[j].representative
  }

  /** The outcome of clustering: marks on every finding, one least representative per signature. */
  ghost predicate Clustered(keys: Keys, sigs: seq<string>, before: seq<Finding>, after: seq<Finding>) {
    && |after| == |before| == |sigs|
    && (forall i :: 0 <= i < |after| ==> Marked(keys.clusterID(sigs[i]), before[i], after[i]))
    && (forall i :: 0 <= i < |after| && after[i].representative ==> Least(sigs, before, i))
    && (forall i :: 0 <= i < |after| ==> Represented(sigs, after, i))
    && (forall i, j :: 0 <= i < j < |after| && after[i].representative && after[j].representative ==>
        sigs[i] != sigs[j])
  }

  /** No two findings of one class share a location. */
  predicate NoTies(sigs: seq<string>, fs: seq<Finding>)
    requires |sigs| == |fs|
  {
    forall i, j :: 0 <= i < j < |fs| && sigs[i] == sigs[j] ==>
      fs[i].location.file != fs[j].location.file || fs[i].location.line != fs[j].location.line
  }

  /** Without ties inside a class the outcome is unique, whatever the order of groups and the sorting. */
  lemma ClusteringIsDetermined(keys: Keys, sigs: seq<string>, fs: seq<Finding>, a: seq<Finding>, b: seq<Finding>)
    requires Clustered(keys, sigs, fs, a) && Clustered(keys, sigs, fs, b) && NoTies(sigs, fs)
    ensures a == b
  {
    forall i | 0 <= i < |fs| ensures a[i] == b[i] {
      SameRepresentative(keys, sigs, fs, a, b, i);
      SameRepresentative(keys, sigs, fs, b, a, i);
      assert Marked(keys.clusterID(sigs[i]), fs[i], a[i]) && Marked(keys.clusterID(sigs[i]), fs[i], b[i]);
    }
  }

  lemma SameRepresentative(keys: Keys, sigs: seq<string>, fs: seq<Finding>, a: seq<Finding>, b: seq<Finding>, i: nat)
    requires Clustered(keys, sigs, fs, a) && Clustered(keys, sigs, fs, b) && NoTies(sigs, fs) && i < |fs|
    ensures a[i].representative ==> b[i].representative
  {
    hide Marked;
    if a[i].representative {
      assert Represented(sigs, b, i);
      var j :| 0 <= j < |b| && sigs[j] == sigs[i] && b[j].representative;
      assert Least(sigs, fs, i) && Least(sigs, fs, j);
      StringTotal(fs[i].location.file, fs[j].location.file);
    }
  }

  /** The indices of each signature, without repetition. */
  ghost predicate Grouped<K>(sigs: seq<K>, n: nat, groups: map<K, seq<nat>>)
    requires n <= |sigs|
  {
    && (forall i :: 0 <= i < n ==> sigs[i] in groups && i in groups[sigs[i]])
    && (forall sig :: sig in groups ==>
        groups[sig] != [] && Distinct(groups[sig]) && AllHave(sigs, n, groups[sig], sig))
  }

  predicate AllHave<K(==)>(sigs: seq<K>, n: nat, indices: seq<nat>, sig: K)
    requires n <= |sigs|
  {
    forall k :: 0 <= k < |indices| ==> indices[k] < n && sigs[indices[k]] == sig
  }

  predicate Within(indices: seq<nat>, n: nat) { forall k :: 0 <= k < |indices| ==> indices[k] < n }

  predicate Distinct(s: seq<nat>) { forall i, j :: 0 <= i < j < |s| ==> s[i] != s[j] }

  lemma MemberJoins<K>(sigs: seq<K>, i: nat, members: seq<nat>)
    requires i < |sigs| && AllHave(sigs, i, members, sigs[i]) && Distinct(members)
    ensures AllHave(sigs, i + 1, members + [i], sigs[i]) && Distinct(members + [i])
    ensures forall k :: k in members || k == i ==> k in members + [i]
  {
  }

  /** One more finding joins its group. */
  lemma GroupedStep<K>(sigs: seq<K>, i: nat, groups: map<K, seq<nat>>, members: seq<nat>)
    requires i < |sigs| && Grouped(sigs, i, groups)
    requires members == if sigs[i] in groups then groups[sigs[i]] else []
    ensures Grouped(sigs, i + 1, groups[sigs[i] := members + [i]])
  {
    var grown := groups[sigs[i] := members + [i]];
    assert AllHave(sigs, i, members, sigs[i]) && Distinct(members);
    MemberJoins(sigs, i, members);
    hide Distinct;
    forall sig | sig in grown
      ensures grown[sig] != [] && Distinct(grown[sig]) && AllHave(sigs, i + 1, grown[sig], sig)
    {
      if sig != sigs[i] { assert AllHave(sigs, i, groups[sig], sig); }
    }
    forall k | 0 <= k < i + 1 ensures sigs[k] in grown && k in grown[sigs[k]] {
      if k < i { assert k in groups[sigs[k]]; }
    }
  }

  method GroupBySignature(keys: Keys, a: array<Finding>) returns (groups: map<string, seq<nat>>)
    ensures Grouped(Signatures(keys, a[..]), a.Length, groups)
  {
    ghost var sigs := Signatures(keys, a[..]);
    groups := map[];
    assert Grouped(sigs, 0, groups);
    hide Grouped;
    for i := 0 to a.Length
      invariant Grouped(sigs, i, groups)
    {
      var sig := keys.signature(a[i]);
      var members := if sig in groups then groups[sig] else [];
      GroupedStep(sigs, i, groups, members);
      groups := groups[sig := members + [i]];
    }
  }

  predicate Ordered(fs: seq<Finding>, indices: seq<nat>) {
    && Within(indices, |fs|)
    && forall i, j :: 0 <= i < j < |indices| ==> !Before(fs[indices[j]].location, fs[indices[i]].location)
  }

  /** Puts x where it belongs in an ordered list. */
  method InsertOrdered(fs: seq<Finding>, sorted: seq<nat>, x: nat) returns (r: seq<nat>)
    requires Ordered(fs, sorted) && x < |fs| && Distinct(sorted) && x !in sorted
    ensures Ordered(fs, r) && Distinct(r) && |r| == |sorted| + 1
    ensures forall y :: y in r <==> y in sorted || y == x
  {
    hide Before;
    var p := |sorted|;
    while p > 0 && Before(fs[x].location, fs[sorted[p - 1]].location)
      invariant 0 <= p <= |sorted|
      invariant forall j :: p <= j < |sorted| ==> Before(fs[x].location, fs[sorted[j]].location)
    {
      p := p - 1;
    }
    forall j | 0 <= j < p ensures !Before(fs[x].location, fs[sorted[j]].location) {
      BeforeOrder(fs[sorted[j]].location, fs[sorted[p - 1]].location, fs[x].location);
    }
    forall j | p <= j < |sorted| ensures !Before(fs[sorted[j]].location, fs[x].location) {
      BeforeOrder(fs[x].location, fs[sorted[j]].location, fs[x].location);
    }
    r := sorted[..p] + [x] + sorted[p..];
    InsertAt(sorted, x, p);
    InsertKeepsOrder(fs, sorted, x, p, r);
  }

  lemma InsertAt<T>(s: seq<T>, x: T, p: nat)
    requires p <= |s|
    ensures var r := s[..p] + [x] + s[p..];
            && |r| == |s| + 1 && r[p] == x
            && (forall j :: 0 <= j < p ==> r[j] == s[j])
            && (forall j :: p < j < |r| ==> r[j] == s[j - 1])
            && forall y :: y in r <==> y in s || y == x
  {
    assert s == s[..p] + s[p..];
  }

  lemma InsertKeepsOrder(fs: seq<Finding>, sorted: seq<nat>, x: nat, p: nat, r: seq<nat>)
    requires Ordered(fs, sorted) && x < |fs| && Distinct(sorted) && x !in sorted && p <= |sorted|
    requires forall j :: 0 <= j < p ==> !Before(fs[x].location, fs[sorted[j]].location)
    requires forall j :: p <= j < |sorted| ==> !Before(fs[sorted[j]].location, fs[x].location)
    requires |r| == |sorted| + 1 && r[p] == x
    requires forall j :: 0 <= j < p ==> r[j] == sorted[j]
    requires forall j :: p < j < |r| ==> r[j] == sorted[j - 1]
    ensures Ordered(fs, r) && Distinct(r)
  {
    hide Before;
    forall i, j | 0 <= i < j < |r|
      ensures r[i] < |fs| && r[j] < |fs| && r[i] != r[j] && !Before(fs[r[j]].location, fs[r[i]].location)
    {
      if i < p && p < j { assert sorted[i] != sorted[j - 1]; }
    }
  }

  /** The indices ordered by location; the order of equal locations is not promised. */
  method SortByLocation(fs: seq<Finding>, indices: seq<nat>) returns (sorted: seq<nat>)
    requires Distinct(indices) && Within(indices, |fs|)
    ensures Ordered(fs, sorted) && Distinct(sorted) && |sorted| == |indices|
    ensures forall x :: x in sorted <==> x in indices
  {
    hide Before;
    sorted := [];
    for k := 0 to |indices|
      invariant Ordered(fs, sorted) && Distinct(sorted) && |sorted| == k
      invariant forall x :: x in sorted <==> x in indices[..k]
    {
      assert indices[k] !in indices[..k];
      sorted := InsertOrdered(fs, sorted, indices[k]);
      assert indices[..k + 1] == indices[..k] + [indices[k]];
    }
    assert indices[..|indices|] == indices;
  }

  /** Marks the members of one cluster, the first of them as its representative. */
  method MarkGroup(a: array<Finding>, sorted: seq<nat>, id: string)
    requires Distinct(sorted) && Within(sorted, a.Length)
    modifies a
    ensures forall k :: 0 <= k < |sorted| ==>
              a[sorted[k]] == old(a[sorted[k]]).(clusterID := id, representative := k == 0, needsTriage := k == 0)
    ensures forall i :: 0 <= i < a.Length && i !in sorted ==> a[i] == old(a[i])
  {
    for seqNo := 0 to |sorted|
      invariant forall k :: 0 <= k < seqNo ==>
                  a[sorted[k]] == old(a[sorted[k]]).(clusterID := id, representative := k == 0, needsTriage := k == 0)
      invariant forall i :: 0 <= i < a.Length && i !in sorted[..seqNo] ==> a[i] == old(a[i])
    {
      var idx := sorted[seqNo];
      assert idx !in sorted[..seqNo];
      a[idx] := a[idx].(clusterID := id, representative := seqNo == 0, needsTriage := seqNo == 0);
      assert sorted[..seqNo + 1] == sorted[..seqNo] + [idx];
    }
    assert sorted[..|sorted|] == sorted;
  }

  /** Signatures that several findings share. */
  ghost function Shared(sigs: seq<string>): set<string> {
    set i, j | 0 <= i < j < |sigs| && sigs[i] == sigs[j] :: sigs[i]
  }

  /** The classes visited so far are marked, each with the representative recorded for it. */
  ghost predicate Visited(keys: Keys, sigs: seq<string>, before: seq<Finding>, now: seq<Finding>,
      reps: map<string, nat>)
    requires |sigs| == |before| == |now|
  {
    && (forall sig :: sig in reps ==> reps[sig] < |sigs| && sigs[reps[sig]] == sig && Least(sigs, before, reps[sig]))
    && (forall i :: 0 <= i < |sigs| ==>
          if sigs[i] in reps then
              Marked(keys.clusterID(sigs[i]), before[i], now[i]) && (now[i].representative <==> i == reps[sigs[i]])
          else now[i] == before[i])
  }

  /** After sorting, the first index of a group is its least. */
  lemma FirstIsLeast(sigs: seq<string>, before: seq<Finding>, now: seq<Finding>, groups: map<string, seq<nat>>,
      sig: string, sorted: seq<nat>)
    requires |sigs| == |before| == |now| && Grouped(sigs, |sigs|, groups) && sig in groups
    requires Ordered(now, sorted) && (forall x :: x in sorted <==> x in groups[sig]) && |sorted| == |groups[sig]|
    requires forall i :: 0 <= i < |sigs| && sigs[i] == sig ==> now[i].location == before[i].location
    ensures sorted != [] && AllHave(sigs, |sigs|, sorted, sig) && Least(sigs, before, sorted[0])
    ensures forall i :: 0 <= i < |sigs| && sigs[i] == sig ==> i in sorted
  {
    hide Before;
    forall k | 0 <= k < |sorted| ensures sorted[k] < |sigs| && sigs[sorted[k]] == sig {
      assert sorted[k] in groups[sig];
      var m :| 0 <= m < |groups[sig]| && groups[sig][m] == sorted[k];
      assert AllHave(sigs, |sigs|, groups[sig], sig);
    }
    forall j | 0 <= j < |sigs| && sigs[j] == sigs[sorted[0]]
        ensures !Before(before[j].location, before[sorted[0]].location) {
      assert j in groups[sig] && j in sorted;
      var m :| 0 <= m < |sorted| && sorted[m] == j;
      BeforeOrder(before[j].location, before[j].location, before[j].location);
    }
  }

  lemma VisitOne(keys: Keys, sigs: seq<string>, before: seq<Finding>, prior: seq<Finding>, now: seq<Finding>,
                 reps: map<string, nat>, sig: string, sorted: seq<nat>)
    requires |sigs| == |before| == |prior| == |now| && Visited(keys, sigs, before, prior, reps) && sig !in reps
    requires sorted != [] && Distinct(sorted) && AllHave(sigs, |sigs|, sorted, sig) && Least(sigs, before, sorted[0])
    requires forall i :: 0 <= i < |sigs| && sigs[i] == sig ==> i in sorted
    requires forall k :: 0 <= k < |sorted| ==>
               now[sorted[k]] == prior[sorted[k]].(clusterID := keys.clusterID(sig), representative := k == 0,
                                                   needsTriage := k == 0)
    requires forall i :: 0 <= i < |now| && i !in sorted ==> now[i] == prior[i]
    ensures Visited(keys, sigs, before, now, reps[sig := sorted[0]])
  {
    hide Least;
    forall i | 0 <= i < |sigs| && sigs[i] == sig
      ensures Marked(keys.clusterID(sig), before[i], now[i]) && (now[i].representative <==> i == sorted[0])
    {
      var k :| 0 <= k < |sorted| && sorted[k] == i;
    }
    forall i | i in sorted ensures i < |sigs| && sigs[i] == sig {
      var k :| 0 <= k < |sorted| && sorted[k] == i;
    }
  }

  lemma VisitedAll(keys: Keys, sigs: seq<string>, before: seq<Finding>, now: seq<Finding>, reps: map<string, nat>)
    requires |sigs| == |before| == |now| && Visited(keys, sigs, before, now, reps)
    requires forall i :: 0 <= i < |sigs| ==> sigs[i] in reps
    ensures Clustered(keys, sigs, before, now)
  {
    hide Least;
    forall i | 0 <= i < |now| ensures Represented(sigs, now, i) {
      var r := reps[sigs[i]];
      assert sigs[r] == sigs[i] && now[r].representative;
    }
  }

  /** A group has several members exactly when its signature is shared. */
  lemma SharedGroup(sigs: seq<string>, groups: map<string, seq<nat>>, sig: string)
    requires Grouped(sigs, |sigs|, groups) && sig in groups
    ensures |groups[sig]| > 1 <==> sig in Shared(sigs)
  {
    var members := groups[sig];
    assert AllHave(sigs, |sigs|, members, sig) && Distinct(members);
    if |members| > 1 {
      var x, y := members[0], members[1];
      assert sigs[if x < y then x else y] == sigs[if x < y then y else x] == sig;
    }
    if sig in Shared(sigs) {
      var i, j :| 0 <= i < j < |sigs| && sigs[i] == sigs[j] == sig;
      assert i in members && j in members;
    }
  }

  lemma OneMoreShared(sigs: seq<string>, groups: map<string, seq<nat>>, left: set<string>, sig: string)
    requires Grouped(sigs, |sigs|, groups) && sig in left && left <= groups.Keys
    ensures |Shared(sigs) - (left - {sig})| == |Shared(sigs) - left| + if |groups[sig]| > 1 then 1 else 0
  {
    hide Shared, Grouped;
    SharedGroup(sigs, groups, sig);
    var shared := Shared(sigs);
    if sig in shared {
      assert shared - (left - {sig}) == (shared - left) + {sig};
    } else {
      assert shared - (left - {sig}) == shared - left;
    }
  }

  /** Sorts and marks one group. */
  method VisitGroup(keys: Keys, a: array<Finding>, sig: string, groups: map<string, seq<nat>>,
                    ghost sigs: seq<string>, ghost before: seq<Finding>, ghost reps: map<string, nat>)
    returns (ghost rep: nat)
    requires |sigs| == |before| == a.Length && Grouped(sigs, |sigs|, groups) && sig in groups && sig !in reps
    requires Visited(keys, sigs, before, a[..], reps)
    modifies a
    ensures Visited(keys, sigs, before, a[..], reps[sig := rep])
  {
    hide Visited, Grouped, Least, Ordered;
    ghost var prior := a[..];
    GroupFacts(keys, sigs, before, prior, groups, reps, sig);
    var sorted := SortByLocation(a[..], groups[sig]);
    FirstIsLeast(sigs, before, prior, groups, sig, sorted);
    MarkGroup(a, sorted, keys.clusterID(sig));
    VisitOne(keys, sigs, before, prior, a[..], reps, sig, sorted);
    rep := sorted[0];
  }

  /** Clusters in place: marks and ids are written, nothing else changes, and the count is that of multi-member
      clusters. */
  method ClusterFindings(keys: Keys, a: array<Finding>) returns (clusterCount: nat)
    modifies a
    ensures Clustered(keys, Signatures(keys, old(a[..])), old(a[..]), a[..])
    ensures clusterCount == |Shared(Signatures(keys, old(a[..])))|
  {
    hide Visited, Grouped, Clustered, Signatures, Shared;
    ghost var before, sigs := a[..], Signatures(keys, a[..]);
    var groups := GroupBySignature(keys, a);
    ghost var reps: map<string, nat> := map[];
    clusterCount := 0;
    var left := groups.Keys;
    NothingVisited(keys, sigs, before, groups);
    while left != {}
      invariant left <= groups.Keys && forall sig :: sig in reps <==> sig in groups && sig !in left
      invariant Visited(keys, sigs, before, a[..], reps)
      invariant clusterCount == |Shared(sigs) - left|
      decreases left
    {
      var sig :| sig in left;
      ghost var rep := VisitGroup(keys, a, sig, groups, sigs, before, reps);
      reps := reps[sig := rep];
      OneMoreShared(sigs, groups, left, sig);
      if |groups[sig]| > 1 { clusterCount := clusterCount + 1; }
      left := left - {sig};
    }
    assert left == {};
    EveryGroup(sigs, groups);
    VisitedAll(keys, sigs, before, a[..], reps);
    assert Shared(sigs) - {} == Shared(sigs);
  }

  lemma NothingVisited(keys: Keys, sigs: seq<string>, before: seq<Finding>, groups: map<string, seq<nat>>)
    requires |sigs| == |before| && Grouped(sigs, |sigs|, groups)
    ensures Visited(keys, sigs, before, before, map[]) && Shared(sigs) <= groups.Keys
    ensures |Shared(sigs) - groups.Keys| == 0
  {
    assert Shared(sigs) - groups.Keys == {};
  }

  lemma GroupFacts(keys: Keys, sigs: seq<string>, before: seq<Finding>, now: seq<Finding>,
      groups: map<string, seq<nat>>,
                   reps: map<string, nat>, sig: string)
    requires |sigs| == |before| == |now| && Grouped(sigs, |sigs|, groups) && sig in groups
    requires Visited(keys, sigs, before, now, reps) && sig !in reps
    ensures Distinct(groups[sig]) && Within(groups[sig], |now|)
    ensures forall i :: 0 <= i < |sigs| && sigs[i] == sig ==> now[i].location == before[i].location
  {
    hide Least;
    assert AllHave(sigs, |sigs|, groups[sig], sig);
  }

  lemma EveryGroup(sigs: seq<string>, groups: map<string, seq<nat>>)
    requires Grouped(sigs, |sigs|, groups)
    ensures forall i :: 0 <= i < |sigs| ==> sigs[i] in groups
  {
  }

  // ---- spreading verdicts ----

  /** The last representative with a cluster id, as the map of representatives keeps it. */
  function RepresentativeOf(fs: seq<Finding>, id: string): (r: Option<nat>)
    ensures r.Some? ==> r.value < |fs| && fs[r.value].representative && fs[r.value].clusterID == id
    ensures r.None? ==> forall i :: 0 <= i < |fs| ==> !(fs[i].representative && fs[i].clusterID == id)
  {
    if fs == [] then None
    else
      var n := |fs| - 1;
      if fs[n].representative && fs[n].clusterID == id then Some(n)
      else
        var r := RepresentativeOf(fs[..n], id);
        assert forall i :: 0 <= i < n ==> fs[..n][i] == fs[i];
        r
  }

  /** A finding after spreading: only the assessment of a non-representative member can change. */
  function Spread(fs: seq<Finding>, i: nat): Finding
    requires i < |fs|
  {
    if fs[i].representative || fs[i].clusterID == "" then fs[i]
    else
      var rep := RepresentativeOf(fs, fs[i].clusterID);
      if rep.None? || fs[rep.value].llm.verdict == "" then fs[i] else fs[i].(llm := fs[rep.value].llm)
  }

  /** The representatives found for the ids of a list. */
  ghost predicate Collected(fs: seq<Finding>, reps: map<string, nat>) {
    && (forall id :: id in reps ==> id != "" && RepresentativeOf(fs, id) == Some(reps[id]))
    && (forall id :: id != "" && RepresentativeOf(fs, id).Some? ==> id in reps)
  }

  lemma SpreadBy(fs: seq<Finding>, reps: map<string, nat>, i: nat)
    requires i < |fs| && Collected(fs, reps)
    ensures var f := fs[i];
            if !f.representative && f.clusterID != "" && f.clusterID in reps then
              var k := reps[f.clusterID];
              && k < |fs| && Spread(fs, k) == fs[k]
              && Spread(fs, i) == if fs[k].llm.verdict != "" then f.(llm := fs[k].llm) else f
            else Spread(fs, i) == f
  {
    assert fs[i].clusterID in reps ==> RepresentativeOf(fs, fs[i].clusterID) == Some(reps[fs[i].clusterID]);
  }

  method PropagateClusterVerdicts(a: array<Finding>)
    modifies a
    ensures forall i :: 0 <= i < a.Length ==> a[i] == Spread(old(a[..]), i)
  {
    hide Spread, RepresentativeOf, Collected;
    ghost var before := a[..];
    var reps := CollectRepresentatives(a);
    for i := 0 to a.Length
      invariant forall j :: 0 <= j < i ==> a[j] == Spread(before, j)
      invariant forall j :: i <= j < a.Length ==> a[j] == before[j]
    {
      var f := a[i];
      SpreadBy(before, reps, i);
      if !f.representative && f.clusterID != "" && f.clusterID in reps {
        var rep := a[reps[f.clusterID]];
        assert rep == before[reps[f.clusterID]];
        if rep.llm.verdict != "" {
          a[i] := f.(llm := rep.llm);
        }
      }
    }
  }

  method CollectRepresentatives(a: array<Finding>) returns (reps: map<string, nat>)
    ensures Collected(a[..], reps)
  {
    reps := map[];
    for i := 0 to a.Length
      invariant Collected(a[..i], reps)
    {
      assert a[..i + 1][..i] == a[..i];
      if a[i].representative && a[i].clusterID != "" {
        reps := reps[a[i].clusterID := i];
      }
    }
    assert a[..a.Length] == a[..];
  }

  // ---- from clustering to verdicts ----

  /** A reordering: position i holds what was at order[i]. */
  ghost predicate Permutation(order: seq<nat>, n: nat) {
    && |order| == n && Within(order, n) && Distinct(order)
    && forall r :: 0 <= r < n ==> r in order
  }

  /** Triage changes nothing but the model fields of representatives. */
  predicate TriagedFrom(before: Finding, after: Finding) {
    if before.representative then
        after == before.(llm := after.llm, rawResponse := after.rawResponse, cost := after.cost)
    else after == before
  }

  /** Cluster ids tell the signatures at hand apart, and are never empty. */
  predicate TellsApart(keys: Keys, sigs: seq<string>) {
    && (forall i, j :: 0 <= i < |sigs| && 0 <= j < |sigs| && keys.clusterID(sigs[i]) == keys.clusterID(sigs[j]) ==>
        sigs[i] == sigs[j])
    && (forall i :: 0 <= i < |sigs| ==> keys.clusterID(sigs[i]) != "")
  }

  /** Triage leaves the marks of clustering alone. */
  lemma MarksStay(keys: Keys, sig: string, before: Finding, clustered: Finding, triaged: Finding)
    requires Marked(keys.clusterID(sig), before, clustered) && TriagedFrom(clustered, triaged)
    ensures triaged.clusterID == keys.clusterID(sig) && triaged.representative == clustered.representative
  {
  }

  lemma SpreadFromRepresentative(fs: seq<Finding>, i: nat, rep: nat)
    requires i < |fs| && fs[i].clusterID != "" && RepresentativeOf(fs, fs[i].clusterID) == Some(rep)
    requires fs[i].representative ==> i == rep
    ensures Spread(fs, rep) == fs[rep]
    ensures Spread(fs, i) == if fs[rep].llm.verdict == "" then fs[i] else fs[i].(llm := fs[rep].llm)
  {
    hide RepresentativeOf;
    assert fs[rep].(llm := fs[rep].llm) == fs[rep];
  }

  /** After clustering, any reordering, and any triage of representatives, spreading gives every member of
      a class its representative's assessment if that has a verdict, and changes nothing otherwise. */
  lemma VerdictsAgree(keys: Keys, sigs: seq<string>, before: seq<Finding>, clustered: seq<Finding>, order: seq<nat>,
      triaged: seq<Finding>, i: nat)
    returns (rep: nat)
    requires Clustered(keys, sigs, before, clustered) && TellsApart(keys, sigs)
    requires Permutation(order, |clustered|) && |triaged| == |clustered| && i < |triaged|
    requires forall k :: 0 <= k < |triaged| ==> TriagedFrom(clustered[order[k]], triaged[k])
    ensures rep < |triaged| && sigs[order[rep]] == sigs[order[i]] && triaged[rep].representative
    ensures Spread(triaged, rep) == triaged[rep]
    ensures Spread(triaged, i) == if triaged[rep].llm.verdict == "" then triaged[i]
                                  else triaged[i].(llm := triaged[rep].llm)
  {
    hide Least, Marked, TriagedFrom, Spread;
    assert Represented(sigs, clustered, order[i]);
    var r :| 0 <= r < |clustered| && sigs[r] == sigs[order[i]] && clustered[r].representative;
    assert r in order;
    rep :| 0 <= rep < |order| && order[rep] == r;
    forall k | 0 <= k < |triaged|
      ensures triaged[k].clusterID == keys.clusterID(sigs[order[k]]) &&
              triaged[k].representative == clustered[order[k]].representative
    {
      assert Marked(keys.clusterID(sigs[order[k]]), before[order[k]], clustered[order[k]]);
      MarksStay(keys, sigs[order[k]], before[order[k]], clustered[order[k]], triaged[k]);
    }
    var found := RepresentativeOf(triaged, triaged[i].clusterID);
    assert found.Some?;
    assert sigs[order[found.value]] == sigs[r];
    assert found.value == rep;
    SpreadFromRepresentative(triaged, i, rep);
  }
}
