/** Findings and the keys that identify them. */
module Findings {

  datatype Location = Location(file: string, line: int, snippet: string)

  /** The language-model part of a finding. */
  datatype Assessment = Assessment(
    verdict: string, confidence: real, explanation: string, remediation: string, provider: string, modelName: string)

  datatype Finding = Finding(
    id: string, sourceTool: string, category: string, title: string, evidence: string, location: Location,
    severity: string, sensitivity: string, ruleID: string,
    needsTriage: bool, clusterID: string, representative: bool,
    llm: Assessment, rawResponse: string, cost: real)

  /** The same issue across two runs: the rule for findings that have one, otherwise category, title, file and
      evidence. */
  function Fingerprint(f: Finding): string {
    if f.ruleID != "" then f.sourceTool + "|" + f.ruleID + "|" + f.location.file
    else f.category + "|" + f.title + "|" + f.location.file + "|" + f.evidence
  }

  /** The fingerprints of a list, with multiplicity. */
  function Prints(fs: seq<Finding>): (m: multiset<string>)
    ensures |m| == |fs|
  {
    if fs == [] then multiset{} else Prints(fs[..|fs| - 1]) + multiset{Fingerprint(fs[|fs| - 1])}
  }

  /** a can be obtained from b by leaving findings out. */
  ghost predicate Subsequence(a: seq<Finding>, b: seq<Finding>) {
    if a == [] then true
    else b != [] && (Subsequence(a, b[..|b| - 1])
                     || (a[|a| - 1] == b[|b| - 1] && Subsequence(a[..|a| - 1], b[..|b| - 1])))
  }

  // ---- keys written with bars ----

  predicate NoBar(s: string) { '|' !in s }

  /** Text before the first bar and text after it. */
  lemma {:induction false} CutAtBar(a: string, b: string, c: string, d: string)
    requires NoBar(a) && NoBar(c) && a + "|" + b == c + "|" + d
    ensures a == c && b == d
  {
    var s := a + "|" + b;
    assert s[0] == if a == [] then '|' else a[0];
    assert s[0] == if c == [] then '|' else c[0];
    if a == [] {
      assert s[1..] == b && (c + "|" + d)[1..] == d;
    } else {
      assert a[1..] + "|" + b == s[1..] == c[1..] + "|" + d;
      CutAtBar(a[1..], b, c[1..], d);
    }
  }

  /** The identity a fingerprint stands for. */
  datatype Identity =
    | ByRule(tool: string, rule: string, file: string)
    | ByEvidence(category: string, title: string, path: string, evidence: string)

  function IdentityOf(f: Finding): Identity {
    if f.ruleID != "" then ByRule(f.sourceTool, f.ruleID, f.location.file)
    else ByEvidence(f.category, f.title, f.location.file, f.evidence)
  }

  /** No bar in the fields a fingerprint is made of, except evidence, which comes last; among such findings a bar in
      the evidence does no harm. */
  predicate BarFree(f: Finding) {
    if f.ruleID != "" then NoBar(f.sourceTool) && NoBar(f.ruleID) && NoBar(f.location.file)
    else NoBar(f.category) && NoBar(f.title) && NoBar(f.location.file)
  }

  /** Bar-free findings have one fingerprint exactly when they are the same issue. */
  lemma FingerprintIdentifies(f: Finding, g: Finding)
    requires BarFree(f) && BarFree(g)
    ensures Fingerprint(f) == Fingerprint(g) <==> IdentityOf(f) == IdentityOf(g)
  {
    if Fingerprint(f) == Fingerprint(g) {
      var (a, b, tail1) := Parts(f);
      var (c, d, tail2) := Parts(g);
      assert Fingerprint(f) == a + "|" + (b + "|" + tail1) && Fingerprint(g) == c + "|" + (d + "|" + tail2);
      assert f.ruleID == "" ==> tail1[|f.location.file|] == '|';
      assert g.ruleID == "" ==> tail2[|g.location.file|] == '|';
      hide Fingerprint;
      CutAtBar(a, b + "|" + tail1, c, d + "|" + tail2);
      CutAtBar(b, tail1, d, tail2);
      if f.ruleID == "" && g.ruleID == "" {
        CutAtBar(f.location.file, f.evidence, g.location.file, g.evidence);
      }
    }
  }

  function Parts(f: Finding): (string, string, string) {
    if f.ruleID != "" then (f.sourceTool, f.ruleID, f.location.file)
    else (f.category, f.title, f.location.file + "|" + f.evidence)
  }

  /** With a bar in a title, two different issues can have one fingerprint. */
  lemma FingerprintsCanCollide(f: Finding)
    requires f.ruleID == ""
    ensures var g := f.(title := "a|b", location := f.location.(file := "c"));
            var h := f.(title := "a", location := f.location.(file := "b|c"));
            Fingerprint(g) == Fingerprint(h) && IdentityOf(g) != IdentityOf(h)
  {
    assert f.category + "|" + "a|b" + "|" + "c" == f.category + "|" + "a" + "|" + "b|c";
  }

  function Bars(s: string): nat {
    if s == [] then 0 else (if s[0] == '|' then 1 else 0) + Bars(s[1..])
  }

  lemma {:induction false} BarsAdd(a: string, b: string)
    ensures Bars(a + b) == Bars(a) + Bars(b)
  {
    if a == [] {
      assert a + b == b;
    } else {
      assert (a + b)[1..] == a[1..] + b;
      BarsAdd(a[1..], b);
    }
  }

  lemma {:induction false} NoBarsExactly(s: string)
    ensures NoBar(s) <==> Bars(s) == 0
  {
    if s != [] {
      NoBarsExactly(s[1..]);
      assert s == [s[0]] + s[1..];
    }
  }

  /** Cuts at the first bar. */
  lemma {:induction false} FirstBar(s: string) returns (a: string, rest: string)
    requires Bars(s) > 0
    ensures s == a + "|" + rest && NoBar(a) && Bars(rest) == Bars(s) - 1
  {
    if s[0] == '|' {
      a, rest := [], s[1..];
    } else {
      var b;
      b, rest := FirstBar(s[1..]);
      a := [s[0]] + b;
    }
  }

  lemma BarBetween(a: string, b: string)
    ensures Bars(a + "|" + b) == Bars(a) + 1 + Bars(b)
  {
    BarsAdd(a, "|");
    BarsAdd(a + "|", b);
    assert Bars("|") == 1;
  }

  lemma FingerprintBars(f: Finding)
    ensures Bars(Fingerprint(f)) >= if f.ruleID == "" then 3 else 2
    ensures !BarFree(f) ==> Bars(Fingerprint(f)) >= 3
  {
    var (a, b, tail) := Parts(f);
    assert Fingerprint(f) == a + "|" + (b + "|" + tail);
    NoBarsExactly(a);
    NoBarsExactly(b);
    NoBarsExactly(tail);
    NoBarsExactly(f.location.file);
    NoBarsExactly(f.evidence);
    hide Bars, NoBar, Fingerprint;
    BarBetween(a, b + "|" + tail);
    BarBetween(b, tail);
    BarBetween(f.location.file, f.evidence);
  }

  /** The bar-free findings are a largest collection without collisions: a bar-free finding shares its fingerprint with
      no other bar-free issue, and every other finding does share it with one. */
  lemma BarFreeIsMaximal(f: Finding)
    ensures BarFree(f) <==> forall g :: BarFree(g) && Fingerprint(g) == Fingerprint(f) ==>
            IdentityOf(g) == IdentityOf(f)
  {
    if BarFree(f) {
      forall g | BarFree(g) && Fingerprint(g) == Fingerprint(f) ensures IdentityOf(g) == IdentityOf(f) {
        FingerprintIdentifies(g, f);
      }
    } else {
      var g := Disguise(f);
    }
  }

  lemma Disguise(f: Finding) returns (g: Finding)
    requires !BarFree(f)
    ensures BarFree(g) && Fingerprint(g) == Fingerprint(f) && IdentityOf(g) != IdentityOf(f)
  {
    hide Bars;
    FingerprintBars(f);
    var category, rest := FirstBar(Fingerprint(f));
    var title, rest' := FirstBar(rest);
    var path, evidence := FirstBar(rest');
    g := f.(ruleID := "", category := category, title := title, location := f.location.(file := path),
        evidence := evidence);
    assert Fingerprint(g) == category + "|" + title + "|" + path + "|" + evidence;
    assert Fingerprint(f) == category + "|" + (title + "|" + (path + "|" + evidence));
  }

  /** A finding of a rule, without bars in tool, rule and file. */
  predicate RuleBarFree(f: Finding) {
    f.ruleID != "" && NoBar(f.sourceTool) && NoBar(f.ruleID) && NoBar(f.location.file)
  }

  /** A finding without a rule always has the fingerprint of one with a rule. */
  lemma RuleAlias(f: Finding) returns (g: Finding)
    requires f.ruleID == ""
    ensures g.ruleID != "" && Fingerprint(g) == Fingerprint(f) && IdentityOf(g) != IdentityOf(f)
  {
    g := f.(sourceTool := f.category, ruleID := f.title + "|" + f.location.file,
            location := f.location.(file := f.evidence));
  }

  /** The fingerprint of such a finding has the two bars between its fields and no others. */
  lemma RuleBars(f: Finding)
    requires RuleBarFree(f)
    ensures Bars(Fingerprint(f)) == 2
  {
    assert Fingerprint(f) == f.sourceTool + "|" + (f.ruleID + "|" + f.location.file);
    NoBarsExactly(f.sourceTool);
    NoBarsExactly(f.ruleID);
    NoBarsExactly(f.location.file);
    hide Bars, NoBar, Fingerprint;
    BarBetween(f.sourceTool, f.ruleID + "|" + f.location.file);
    BarBetween(f.ruleID, f.location.file);
  }

  /** To have a rule, and no bar in tool, rule and file, is exactly the condition under which a finding shares its
      fingerprint with its own issue only, whatever the other finding looks like. */
  lemma FingerprintExactly(f: Finding)
    ensures RuleBarFree(f) <==> forall g :: Fingerprint(g) == Fingerprint(f) ==> IdentityOf(g) == IdentityOf(f)
  {
    if RuleBarFree(f) {
      RuleBars(f);
      forall g | Fingerprint(g) == Fingerprint(f) ensures IdentityOf(g) == IdentityOf(f) {
        FingerprintBars(g);
        FingerprintIdentifies(g, f);
      }
    } else if f.ruleID == "" {
      var g := RuleAlias(f);
    } else {
      var g := Disguise(f);
    }
  }

  /** Decimal text of an integer. */
  function IntText(n: int): (r: string)
    ensures r != [] && NoBar(r) && (r[0] == '-' <==> n < 0) && (|r| == 1 <==> 0 <= n < 10)
    decreases n < 0, if n < 0 then -n else n
  {
    if n < 0 then ['-'] + IntText(-n)
    else if n < 10 then [DigitChar(n)]
    else IntText(n / 10) + [DigitChar(n % 10)]
  }

  function DigitChar(d: int): (c: char)
    requires 0 <= d < 10
    ensures '0' <= c <= '9'
  {
    d as char + '0'
  }

  lemma {:induction false} IntTextInjective(m: int, n: int)
    requires IntText(m) == IntText(n)
    ensures m == n
    decreases m < 0, if m < 0 then -m else m
  {
    var s := IntText(m);
    if m < 0 {
      assert s[1..] == IntText(-m) == IntText(-n);
      IntTextInjective(-m, -n);
    } else if m < 10 && n < 10 {
    } else if m >= 10 && n >= 10 {
      assert s[..|s| - 1] == IntText(m / 10) == IntText(n / 10);
      assert s[|s| - 1] == DigitChar(m % 10) == DigitChar(n % 10);
      IntTextInjective(m / 10, n / 10);
    }
  }

  /** The key of exact duplicates; the snippet enters through its hash. */
  function DedupKey(snippetHash: string -> string, f: Finding): string {
    f.category + "|" + (f.title + "|" +
        (f.location.file + "|" + (IntText(f.location.line) + "|" + snippetHash(f.location.snippet))))
  }

  /** Findings without bars in category, title and file have one key exactly when all five parts agree. */
  lemma DedupKeyIdentifies(snippetHash: string -> string, f: Finding, g: Finding)
    requires NoBar(f.category) && NoBar(f.title) && NoBar(f.location.file)
    requires NoBar(g.category) && NoBar(g.title) && NoBar(g.location.file)
    ensures DedupKey(snippetHash, f) == DedupKey(snippetHash, g)
       <==> && f.category == g.category && f.title == g.title && f.location.file == g.location.file
            && f.location.line == g.location.line && snippetHash(f.location.snippet) == snippetHash(g.location.snippet)
  {
    hide NoBar, IntText;
    if DedupKey(snippetHash, f) == DedupKey(snippetHash, g) {
      var h1, h2 := snippetHash(f.location.snippet), snippetHash(g.location.snippet);
      var l1, l2 := IntText(f.location.line), IntText(g.location.line);
      CutAtBar(f.category, f.title + "|" + (f.location.file + "|" + (l1 + "|" + h1)),
               g.category, g.title + "|" + (g.location.file + "|" + (l2 + "|" + h2)));
      CutAtBar(f.title, f.location.file + "|" + (l1 + "|" + h1), g.title, g.location.file + "|" + (l2 + "|" + h2));
      CutAtBar(f.location.file, l1 + "|" + h1, g.location.file, l2 + "|" + h2);
      CutAtBar(l1, h1, l2, h2);
      IntTextInjective(f.location.line, g.location.line);
    }
  }

  /** Text before the last bar and text after it. */
  lemma {:induction false} CutAtLastBar(a: string, b: string, c: string, d: string)
    requires NoBar(b) && NoBar(d) && a + "|" + b == c + "|" + d
    ensures a == c && b == d
  {
    var s, n := a + "|" + b, |a + "|" + b|;
    assert s[n - 1] == if b == [] then '|' else b[|b| - 1];
    assert s[n - 1] == if d == [] then '|' else d[|d| - 1];
    if b == [] {
      assert s[..n - 1] == a && (c + "|" + d)[..n - 1] == c;
    } else {
      assert a + "|" + b[..|b| - 1] == s[..n - 1] == c + "|" + d[..|d| - 1];
      CutAtLastBar(a, b[..|b| - 1], c, d[..|d| - 1]);
      assert b == b[..|b| - 1] + [s[n - 1]] && d == d[..|d| - 1] + [s[n - 1]];
    }
  }

  /** Category, title and file as the key joins them. */
  function Joined(f: Finding): string { f.category + "|" + (f.title + "|" + f.location.file) }

  /** For all findings, bars or not: since the hash has no bar, two have one key exactly when line, hash, and the
      joined text of category, title and file agree. */
  lemma DedupKeyJoins(snippetHash: string -> string, f: Finding, g: Finding)
    requires NoBar(snippetHash(f.location.snippet)) && NoBar(snippetHash(g.location.snippet))
    ensures DedupKey(snippetHash, f) == DedupKey(snippetHash, g)
       <==> && Joined(f) == Joined(g) && f.location.line == g.location.line
            && snippetHash(f.location.snippet) == snippetHash(g.location.snippet)
  {
    hide NoBar, IntText;
    var h1, h2, l1, l2 := snippetHash(f.location.snippet), snippetHash(g.location.snippet), IntText(f.location.line),
        IntText(g.location.line);
    assert DedupKey(snippetHash, f) == (Joined(f) + "|" + l1) + "|" + h1;
    assert DedupKey(snippetHash, g) == (Joined(g) + "|" + l2) + "|" + h2;
    if DedupKey(snippetHash, f) == DedupKey(snippetHash, g) {
      CutAtLastBar(Joined(f) + "|" + l1, h1, Joined(g) + "|" + l2, h2);
      CutAtLastBar(Joined(f), l1, Joined(g), l2);
      IntTextInjective(f.location.line, g.location.line);
    }
  }

  /** All five parts that a duplicate has to share. */
  predicate SameParts(snippetHash: string -> string, f: Finding, g: Finding) {
    && f.category == g.category && f.title == g.title && f.location.file == g.location.file
    && f.location.line == g.location.line
    && snippetHash(f.location.snippet) == snippetHash(g.location.snippet)
  }

  lemma JoinedBars(f: Finding)
    ensures Bars(Joined(f)) == 2 + Bars(f.category) + Bars(f.title) + Bars(f.location.file)
  {
    BarBetween(f.category, f.title + "|" + f.location.file);
    BarBetween(f.title, f.location.file);
  }

  predicate KeyBarFree(f: Finding) { NoBar(f.category) && NoBar(f.title) && NoBar(f.location.file) }

  /** A finding with a bar in its category, title or file has the key of a different one. */
  lemma KeyDisguise(snippetHash: string -> string, f: Finding) returns (g: Finding)
    requires !KeyBarFree(f)
    ensures DedupKey(snippetHash, f) == DedupKey(snippetHash, g) && !SameParts(snippetHash, f, g)
  {
    NoBarsExactly(f.category);
    NoBarsExactly(f.title);
    NoBarsExactly(f.location.file);
    hide Bars, NoBar, DedupKey;
    if Bars(f.category) > 0 {
      var a, b := FirstBar(f.category);
      g := f.(category := a, title := b + "|" + f.title);
      assert a + "|" + b + "|" + (f.title + "|" + f.location.file) ==
             a + "|" + (b + "|" + f.title + "|" + f.location.file);
    } else if Bars(f.title) > 0 {
      var a, b := FirstBar(f.title);
      g := f.(category := f.category + "|" + a, title := b);
      assert f.category + "|" + (a + "|" + b + "|" + f.location.file) ==
             f.category + "|" + a + "|" + (b + "|" + f.location.file);
    } else {
      var a, b := FirstBar(f.location.file);
      g := f.(title := f.title + "|" + a, location := f.location.(file := b));
      assert f.title + "|" + (a + "|" + b) == f.title + "|" + a + "|" + b;
    }
    hide Joined;
    JoinedKey(snippetHash, f);
    JoinedKey(snippetHash, g);
  }

  lemma JoinedKey(snippetHash: string -> string, f: Finding)
    ensures DedupKey(snippetHash, f) ==
            Joined(f) + "|" + IntText(f.location.line) + "|" + snippetHash(f.location.snippet)
  {
  }

  /** Freedom from bars in category, title and file is exactly the condition under which a finding shares its key
      with its duplicates only, whatever the other finding looks like. */
  lemma DedupKeyExactly(snippetHash: string -> string, f: Finding)
    requires forall s :: NoBar(snippetHash(s))
    ensures KeyBarFree(f)
       <==> forall g :: DedupKey(snippetHash, f) == DedupKey(snippetHash, g) ==> SameParts(snippetHash, f, g)
  {
    hide Bars;
    if KeyBarFree(f) {
      forall g | DedupKey(snippetHash, f) == DedupKey(snippetHash, g) ensures SameParts(snippetHash, f, g) {
        DedupKeyJoins(snippetHash, f, g);
        AlsoKeyBarFree(f, g);
        DedupKeyIdentifies(snippetHash, f, g);
      }
    } else {
      var g := KeyDisguise(snippetHash, f);
    }
  }

  lemma AlsoKeyBarFree(f: Finding, g: Finding)
    requires KeyBarFree(f) && Joined(f) == Joined(g)
    ensures KeyBarFree(g)
  {
    hide Bars, NoBar, Joined;
    JoinedBars(f);
    JoinedBars(g);
    NoBarsExactly(f.category);
    NoBarsExactly(f.title);
    NoBarsExactly(f.location.file);
    NoBarsExactly(g.category);
    NoBarsExactly(g.title);
    NoBarsExactly(g.location.file);
  }

  /** With a bar in a title, deduplication can take two different findings for one. */
  lemma DedupKeysCanCollide(snippetHash: string -> string, f: Finding)
    ensures var g := f.(title := "a|b", location := f.location.(file := "c"));
            var h := f.(title := "a", location := f.location.(file := "b|c"));
            DedupKey(snippetHash, g) == DedupKey(snippetHash, h) && g.title != h.title
  {
    var tail := IntText(f.location.line) + "|" + snippetHash(f.location.snippet);
    assert "a|b" + "|" + ("c" + "|" + tail) == "a" + "|" + ("b|c" + "|" + tail);
  }
}
