/** Making untrusted text harmless inside a prompt: eleven replacement passes, one after the other. */
module Escape {

  datatype Rule = Rule(target: string, replacement: string)

  /** The rule for a tag: its angle brackets become entities. */
  function Tag(name: string): Rule { Rule("<" + name + ">", "&lt;" + name + "&gt;") }

  const RULES: seq<Rule> := [
    Tag("/untrusted_data"), Tag("untrusted_data"), Tag("/system"), Tag("system"), Tag("/user"), Tag("/assistant"),
    Tag("/instructions"), Rule("```", "'''"), Tag("|im_start|"), Tag("|im_end|"), Tag("|endoftext|")
  ]

  predicate StartsWith(s: string, q: string) { |q| <= |s| && s[..|q|] == q }

  ghost predicate Contains(s: string, q: string) {
    exists i :: 0 <= i <= |s| && StartsWith(s[i..], q)
  }

  /** Replaces the leftmost occurrence, then goes on behind it. */
  function ReplaceAll(s: string, target: string, replacement: string): string
    decreases |s|
  {
    if |s| < |target| || target == [] then s
    else if StartsWith(s, target) then replacement + ReplaceAll(s[|target|..], target, replacement)
    else [s[0]] + ReplaceAll(s[1..], target, replacement)
  }

  /** The passes, in order. */
  function Passes(rules: seq<Rule>, s: string): string {
    if rules == [] then s
    else Passes(rules[1..], ReplaceAll(s, rules[0].target, rules[0].replacement))
  }

  method EscapeUntrusted(text: string) returns (s: string)
    ensures s == Passes(RULES, text)
  {
    s := text;
    for k := 0 to |RULES|
      invariant Passes(RULES[k..], s) == Passes(RULES, text)
    {
      assert RULES[k..][1..] == RULES[k + 1..];
      s := ReplaceAll(s, RULES[k].target, RULES[k].replacement);
    }
    assert RULES[|RULES|..] == [];
  }

  // ---- what makes a table of rules sound ----

  /** From '<' to the first '>'. */
  predicate Bracketed(q: string) {
    |q| >= 2 && q[0] == '<' && q[|q| - 1] == '>'
    && (forall i :: 0 < i < |q| ==> q[i] != '<') && (forall i :: 0 <= i < |q| - 1 ==> q[i] != '>')
    && (forall i :: 0 <= i < |q| ==> q[i] != '`')
  }

  predicate Delimiter(q: string) {
    (Bracketed(q) || q == "```") && forall i :: 0 <= i < |q| ==> q[i] != '&' && q[i] != '\''
  }

  /** Begins with a character no delimiter has, and has no character a delimiter begins with. */
  predicate Harmless(t: string) {
    t != [] && (t[0] == '&' || t[0] == '\'') && forall i :: 0 <= i < |t| ==> t[i] != '<' && t[i] != '`'
  }

  predicate SoundRule(r: Rule) { Delimiter(r.target) && Harmless(r.replacement) }

  predicate Sound(rules: seq<Rule>) { forall k :: 0 <= k < |rules| ==> SoundRule(rules[k]) }

  /** Letters, slashes, bars and underscores are fine in a tag. */
  predicate Plain(name: string) {
    forall i :: 0 <= i < |name| ==>
        name[i] != '<' && name[i] != '>' && name[i] != '&' && name[i] != '\'' && name[i] != '`'
  }

  lemma TagIsSound(name: string)
    requires Plain(name)
    ensures SoundRule(Tag(name))
  {
    var q, t := Tag(name).target, Tag(name).replacement;
    assert forall i :: 0 < i < |q| - 1 ==> q[i] == name[i - 1];
    assert forall i :: 4 <= i < 4 + |name| ==> t[i] == name[i - 4];
  }

  lemma TableIsSound()
    ensures Sound(RULES)
  {
    hide SoundRule, Tag;
    TagIsSound("/untrusted_data");
    TagIsSound("untrusted_data");
    TagIsSound("/system");
    TagIsSound("system");
    TagIsSound("/user");
    TagIsSound("/assistant");
    LastRulesAreSound();
  }

  lemma TicksAreSound()
    ensures SoundRule(Rule("```", "'''"))
  {
  }

  lemma LastRulesAreSound()
    ensures forall k :: 6 <= k < 11 ==> SoundRule(RULES[k])
  {
    hide SoundRule, Tag;
    TagIsSound("/instructions");
    TicksAreSound();
    TagIsSound("|im_start|");
    TagIsSound("|im_end|");
    TagIsSound("|endoftext|");
  }

  // ---- one pass ----

  /** What a pass's result starts with, its input started with. */
  lemma {:induction false} PassStarts(s: string, r: Rule, q: string)
    requires SoundRule(r) && StartsWith(ReplaceAll(s, r.target, r.replacement), q)
    requires forall i :: 0 <= i < |q| ==> q[i] != '&' && q[i] != '\''
    ensures StartsWith(s, q)
    decreases |s|
  {
    hide Delimiter;
    var t := ReplaceAll(s, r.target, r.replacement);
    if q != [] && t != s {
      assert t[0] == q[0];
      assert t == [s[0]] + ReplaceAll(s[1..], r.target, r.replacement);
      assert t[1..][..|q| - 1] == q[1..];
      PassStarts(s[1..], r, q[1..]);
      assert s[..|q|] == [s[0]] + s[1..][..|q| - 1];
    }
  }

  /** A pass removes its own delimiter and creates no other. */
  lemma {:induction false} PassCreatesNothing(s: string, r: Rule, q: string)
    requires SoundRule(r) && Delimiter(q) && Contains(ReplaceAll(s, r.target, r.replacement), q)
    ensures q != r.target && Contains(s, q)
    decreases |s|
  {
    var t, n := ReplaceAll(s, r.target, r.replacement), |r.target|;
    var i :| 0 <= i <= |t| && StartsWith(t[i..], q);
    if |s| < n {
    } else if StartsWith(s, r.target) {
      BehindReplacement(r.replacement, ReplaceAll(s[n..], r.target, r.replacement), q, i);
      PassCreatesNothing(s[n..], r, q);
      ContainsLater(s, n, q);
    } else if i == 0 {
      PassStarts(s, r, q);
      assert s[0..] == s;
    } else {
      var rest := ReplaceAll(s[1..], r.target, r.replacement);
      assert t == [s[0]] + rest;
      BehindHead(s[0], rest, q, i);
      PassCreatesNothing(s[1..], r, q);
      ContainsLater(s, 1, q);
    }
  }

  lemma BehindHead(head: char, rest: string, q: string, i: nat)
    requires 0 < i <= |rest| + 1 && StartsWith(([head] + rest)[i..], q)
    ensures Contains(rest, q)
  {
    assert ([head] + rest)[i..] == rest[i - 1..];
  }

  lemma BehindReplacement(replacement: string, rest: string, q: string, i: nat)
    requires Harmless(replacement) && Delimiter(q) && i <= |replacement + rest| &&
             StartsWith((replacement + rest)[i..], q)
    ensures Contains(rest, q)
  {
    var t := replacement + rest;
    assert t[i..][0] == q[0] == t[i];
    assert i >= |replacement|;
    assert t[i..] == rest[i - |replacement|..];
  }

  lemma ContainsLater(s: string, n: nat, q: string)
    requires n <= |s| && Contains(s[n..], q)
    ensures Contains(s, q)
  {
    var i :| 0 <= i <= |s[n..]| && StartsWith(s[n..][i..], q);
    assert s[n..][i..] == s[n + i..];
  }

  /** A pass leaves a string without its delimiter alone. */
  lemma {:induction false} PassKeeps(s: string, r: Rule)
    requires !Contains(s, r.target)
    ensures ReplaceAll(s, r.target, r.replacement) == s
    decreases |s|
  {
    hide StartsWith;
    if |s| >= |r.target| && r.target != [] {
      assert s[0..] == s;
      if Contains(s[1..], r.target) { ContainsLater(s, 1, r.target); }
      PassKeeps(s[1..], r);
      assert s == [s[0]] + s[1..];
    }
  }

  // ---- all passes ----

  ghost predicate Clean(rules: seq<Rule>, s: string) {
    forall k :: 0 <= k < |rules| ==> !Contains(s, rules[k].target)
  }

  /** Once gone, a delimiter stays gone. */
  lemma {:induction false} PassesCreateNothing(rules: seq<Rule>, s: string, q: string)
    requires Sound(rules) && Delimiter(q) && !Contains(s, q)
    ensures !Contains(Passes(rules, s), q)
  {
    hide Delimiter, Contains, SoundRule;
    if rules != [] {
      var t := ReplaceAll(s, rules[0].target, rules[0].replacement);
      if Contains(t, q) { PassCreatesNothing(s, rules[0], q); }
      PassesCreateNothing(rules[1..], t, q);
    }
  }

  lemma {:induction false} PassesClean(rules: seq<Rule>, s: string)
    requires Sound(rules)
    ensures Clean(rules, Passes(rules, s))
  {
    hide Delimiter, Contains, Harmless;
    if rules != [] {
      var t := ReplaceAll(s, rules[0].target, rules[0].replacement);
      PassesClean(rules[1..], t);
      if Contains(t, rules[0].target) { PassCreatesNothing(s, rules[0], rules[0].target); }
      PassesCreateNothing(rules[1..], t, rules[0].target);
      forall k | 0 <= k < |rules| ensures !Contains(Passes(rules, s), rules[k].target) {
        if k > 0 { assert rules[1..][k - 1] == rules[k]; }
      }
    }
  }

  lemma {:induction false} PassesKeep(rules: seq<Rule>, s: string)
    requires Clean(rules, s)
    ensures Passes(rules, s) == s
  {
    hide Contains;
    if rules != [] {
      PassKeeps(s, rules[0]);
      PassesKeep(rules[1..], s);
    }
  }

  /** No escaped text contains any of the eleven sequences, and exactly the texts without them stay as they are. */
  lemma EscapingCloses(text: string)
    ensures Clean(RULES, Passes(RULES, text))
    ensures Passes(RULES, text) == text <==> Clean(RULES, text)
  {
    hide Clean, Passes, Sound;
    TableIsSound();
    PassesClean(RULES, text);
    if Clean(RULES, text) { PassesKeep(RULES, text); }
  }

  lemma EscapingIsIdempotent(text: string)
    ensures Passes(RULES, Passes(RULES, text)) == Passes(RULES, text)
  {
    hide Clean, Passes, Sound;
    EscapingCloses(text);
    PassesKeep(RULES, Passes(RULES, text));
  }

  // ---- the passes together are one simultaneous replacement ----

  /** The first rule whose delimiter the text starts with; the number of rules if there is none. */
  function Match(rules: seq<Rule>, s: string): (r: nat)
    ensures r <= |rules| && (r < |rules| ==> StartsWith(s, rules[r].target))
    ensures forall k :: 0 <= k < r ==> !StartsWith(s, rules[k].target)
  {
    if rules == [] || StartsWith(s, rules[0].target) then 0 else 1 + Match(rules[1..], s)
  }

  /** One scan of the text, replacing whatever delimiter is met. */
  function Scan(rules: seq<Rule>, s: string): string
    decreases |s|
  {
    if s == [] then []
    else
      var k := Match(rules, s);
      if k == |rules| || rules[k].target == [] then [s[0]] + Scan(rules, s[1..])
      else rules[k].replacement + Scan(rules, s[|rules[k].target|..])
  }

  /** A text starts with at most one delimiter. */
  lemma OneDelimiter(s: string, p: string, q: string)
    requires Delimiter(p) && Delimiter(q) && StartsWith(s, p) && StartsWith(s, q)
    ensures p == q
  {
    assert s[0] == p[0] == q[0];
    if Bracketed(p) {
      assert s[|p| - 1] == '>' && s[|q| - 1] == '>';
      assert |p| == |q|;
    }
  }

  lemma FirstDiffers(s: string, q: string)
    requires s != [] && q != [] && s[0] != q[0]
    ensures !StartsWith(s, q)
  {
  }

  lemma NotEmpty(q: string)
    requires Delimiter(q)
    ensures q != []
  {
  }

  lemma HeadKept(s: string, r: Rule)
    requires s != [] && r.target != [] && !StartsWith(s, r.target)
    ensures ReplaceAll(s, r.target, r.replacement) == [s[0]] + ReplaceAll(s[1..], r.target, r.replacement)
  {
    if |s| < |r.target| { assert s == [s[0]] + s[1..]; }
  }

  lemma FrontMatches(f: string, s: string)
    ensures StartsWith(f + s, f)
  {
  }

  lemma Regroup<T>(f: seq<T>, s: seq<T>)
    requires f != []
    ensures f + s == [f[0]] + (f[1..] + s) && (f + s)[0] == f[0] && (f + s)[1..] == f[1..] + s
  {
  }

  /** Passing over text that no occurrence can start in. */
  lemma {:induction false} PassOver(t: string, s: string, r: Rule)
    requires SoundRule(r) && forall i :: 0 <= i < |t| ==> t[i] != r.target[0]
    ensures ReplaceAll(t + s, r.target, r.replacement) == t + ReplaceAll(s, r.target, r.replacement)
    decreases |t|
  {
    NotEmpty(r.target);
    var after := ReplaceAll(s, r.target, r.replacement);
    hide ReplaceAll, StartsWith, SoundRule;
    if t == [] {
      assert t + s == s && t + after == after;
    } else {
      FirstDiffers(t + s, r.target);
      HeadKept(t + s, r);
      Regroup(t, s);
      PassOver(t[1..], s, r);
      Regroup(t, after);
    }
  }

  /** Text of a replacement survives every later pass. */
  lemma {:induction false} ReplacementStays(rules: seq<Rule>, t: string, s: string)
    requires Sound(rules) && forall i :: 0 <= i < |t| ==> t[i] != '<' && t[i] != '`'
    ensures Passes(rules, t + s) == t + Passes(rules, s)
  {
    if rules != [] {
      assert SoundRule(rules[0]);
      PassOver(t, s, rules[0]);
      ReplacementStays(rules[1..], t, ReplaceAll(s, rules[0].target, rules[0].replacement));
    }
  }

  /** A character at which no delimiter starts survives every pass. */
  lemma {:induction false} HeadStays(rules: seq<Rule>, s: string)
    requires Sound(rules) && s != [] && forall k :: 0 <= k < |rules| ==> !StartsWith(s, rules[k].target)
    ensures Passes(rules, s) == [s[0]] + Passes(rules, s[1..])
  {
    hide Harmless;
    if rules == [] {
      assert s == [s[0]] + s[1..];
    } else {
      var r := rules[0];
      assert SoundRule(r) && r.target != [];
      var t := ReplaceAll(s, r.target, r.replacement);
      HeadKept(s, r);
      forall k | 0 <= k < |rules[1..]| ensures !StartsWith(t, rules[1..][k].target) {
        assert SoundRule(rules[k + 1]) && !StartsWith(s, rules[k + 1].target);
        if StartsWith(t, rules[k + 1].target) { PassStarts(s, r, rules[k + 1].target); }
      }
      HeadStays(rules[1..], t);
    }
  }

  /** No delimiter starts inside another. */
  lemma InsideDelimiter(f: string, g: string)
    requires Delimiter(f) && Delimiter(g) && f != g
    ensures f != [] && g != [] && forall i :: 0 <= i < |f[1..]| ==> f[1..][i] != g[0]
  {
  }

  /** A pass for another delimiter leaves a delimiter at the front alone. */
  lemma DelimiterKept(f: string, s: string, r: Rule)
    requires SoundRule(r) && Delimiter(f) && f != r.target
    ensures ReplaceAll(f + s, r.target, r.replacement) == f + ReplaceAll(s, r.target, r.replacement)
  {
    assert Delimiter(r.target);
    hide Delimiter;
    InsideDelimiter(f, r.target);
    FrontMatches(f, s);
    hide ReplaceAll, StartsWith, SoundRule;
    if StartsWith(f + s, r.target) { OneDelimiter(f + s, f, r.target); }
    HeadKept(f + s, r);
    Regroup(f, s);
    PassOver(f[1..], s, r);
    Regroup(f, ReplaceAll(s, r.target, r.replacement));
  }

  /** A delimiter at the front is replaced by its first rule, and by no other. */
  lemma {:induction false} FrontReplaced(rules: seq<Rule>, k: nat, s: string)
    requires Sound(rules) && k < |rules| && forall j :: 0 <= j < k ==> rules[j].target != rules[k].target
    ensures Passes(rules, rules[k].target + s) == rules[k].replacement + Passes(rules, s)
  {
    hide Delimiter;
    var f, r := rules[k].target, rules[0];
    assert SoundRule(r) && SoundRule(rules[k]);
    if k == 0 {
      assert StartsWith(f + s, f) && (f + s)[|f|..] == s;
      NotEmpty(f);
      ReplacementStays(rules[1..], r.replacement, ReplaceAll(s, r.target, r.replacement));
    } else {
      DelimiterKept(f, s, r);
      FrontReplaced(rules[1..], k - 1, ReplaceAll(s, r.target, r.replacement));
    }
  }

  /** The passes one after the other do what a single scan with all rules at once does. */
  lemma {:induction false} PassesAreOneScan(rules: seq<Rule>, s: string)
    requires Sound(rules)
    ensures Passes(rules, s) == Scan(rules, s)
    decreases |s|
  {
    hide Delimiter, Harmless, Passes;
    if s == [] {
      NothingToPass(rules);
    } else {
      var k := Match(rules, s);
      if k == |rules| {
        HeadStays(rules, s);
        PassesAreOneScan(rules, s[1..]);
      } else {
        assert SoundRule(rules[k]);
        NotEmpty(rules[k].target);
        var rest := s[|rules[k].target|..];
        assert s == rules[k].target + rest;
        FrontReplaced(rules, k, rest);
        PassesAreOneScan(rules, rest);
      }
    }
  }

  lemma {:induction false} NothingToPass(rules: seq<Rule>)
    requires Sound(rules)
    ensures Passes(rules, []) == []
  {
    if rules != [] {
      assert SoundRule(rules[0]);
      NothingToPass(rules[1..]);
    }
  }

  lemma EscapingIsOneScan(text: string)
    ensures Passes(RULES, text) == Scan(RULES, text)
  {
    TableIsSound();
    hide *;
    PassesAreOneScan(RULES, text);
  }
}
