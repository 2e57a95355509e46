/** Both readers of a network security config see one policy. */
module NscAgree {
  import opened Bytes
  import opened Axml
  import opened Nsc

  /** Equal but for the order of pins. */
  predicate Same(a: Part, b: Part) { a.(pins := []) == b.(pins := []) && multiset(a.pins) == multiset(b.pins) }

  lemma JoinSame(a: Part, a': Part, b: Part, b': Part)
    requires Same(a, a') && Same(b, b')
    ensures Same(Join(a, b), Join(a', b'))
  {
  }

  /** Contributions of which one names no domains can trade places. */
  lemma JoinSwap(a: Part, b: Part)
    requires a.domains == [] || b.domains == []
    ensures Same(Join(a, b), Join(b, a))
  {
    assert a.domains + b.domains == b.domains + a.domains;
  }

  lemma JoinAssociates(a: Part, b: Part, c: Part)
    ensures Join(Join(a, b), c) == Join(a, Join(b, c))
  {
  }

  lemma JoinNone(a: Part)
    ensures Join(a, NONE) == a == Join(NONE, a)
  {
  }

  // ---- element lists, decoded ----

  /** One pin per expiration, all for one domain. */
  function PinsAll(domain: Str, expirations: seq<Str>): (r: seq<Pin>)
    ensures |r| == |expirations|
  {
    if expirations == [] then []
    else PinsAll(domain, expirations[..|expirations| - 1]) + [Pin(domain, expirations[|expirations| - 1])]
  }

  lemma Snoc<T>(s: seq<T>, x: T)
    ensures (s + [x])[..|s + [x]| - 1] == s && (s + [x])[|s + [x]| - 1] == x && s + [x] != []
  {
  }

  /** The pin sets of an element, as the decoded reader gets them. */
  lemma {:induction false} PinSetsDecoded(lib: Lib, domain: Str, cs: seq<Tree>)
    ensures DecodePinSets(cs) == [] <==> Expirations(cs) == []
    ensures XPins(domain, DecodePinSets(cs)) == PinsAll(domain, Expirations(cs))
    ensures XOverride(lib, DecodePinSets(cs)) <==> SomePinOverride(lib, cs)
  {
    hide Is, TextOf;
    if cs != [] {
      var c := cs[|cs| - 1];
      PinSetsDecoded(lib, domain, cs[..|cs| - 1]);
      Snoc(DecodePinSets(cs[..|cs| - 1]), XPinSet(TextOf(c, Expiration), TextOf(c, OverridePins)));
      Snoc(Expirations(cs[..|cs| - 1]), TextOf(c, Expiration));
    }
  }

  lemma {:induction false} WithoutPinSets(cs: seq<Tree>)
    ensures Without(cs, PinSet) <==> Expirations(cs) == []
  {
    hide Is, TextOf;
    if cs != [] {
      WithoutPinSets(cs[..|cs| - 1]);
      WithoutLast(cs, PinSet);
    }
  }

  lemma {:induction false} WithoutDomains(cs: seq<Tree>)
    ensures Without(cs, Domain) <==> DecodeDomains(cs) == []
  {
    hide Is, TextOf;
    if cs != [] {
      WithoutDomains(cs[..|cs| - 1]);
      WithoutLast(cs, Domain);
    }
  }

  lemma WithoutLast(cs: seq<Tree>, tag: Tag)
    requires cs != []
    ensures Without(cs, tag) <==> Without(cs[..|cs| - 1], tag) && !Is(cs[|cs| - 1], tag)
  {
    hide Is;
    assert forall i :: 0 <= i < |cs| - 1 ==> cs[..|cs| - 1][i] == cs[i];
  }

  lemma AtMostOneLast(cs: seq<Tree>, tag: Tag)
    requires cs != [] && AtMostOne(cs, tag)
    ensures AtMostOne(cs[..|cs| - 1], tag) && (Is(cs[|cs| - 1], tag) ==> Without(cs[..|cs| - 1], tag))
  {
    hide Is;
    assert forall i :: 0 <= i < |cs| - 1 ==> cs[..|cs| - 1][i] == cs[i];
  }

  lemma {:induction false} NoTrust(lib: Lib, cs: seq<Tree>)
    requires Without(cs, Trust)
    ensures !SomeTrust(lib, cs) && DecodeTrust(cs) == None
  {
    hide Is, CustomAnchors;
    if cs != [] {
      WithoutLast(cs, Trust);
      NoTrust(lib, cs[..|cs| - 1]);
    }
  }

  lemma {:induction false} TrustDecoded(lib: Lib, cs: seq<Tree>)
    requires AtMostOne(cs, Trust)
    ensures XCustom(lib, DecodeTrust(cs)) <==> SomeTrust(lib, cs)
  {
    hide Is, SomeCustom;
    if cs != [] {
      AtMostOneLast(cs, Trust);
      if Is(cs[|cs| - 1], Trust) { NoTrust(lib, cs[..|cs| - 1]); } else { TrustDecoded(lib, cs[..|cs| - 1]); }
    }
  }

  // ---- domain configs ----

  /** One pin per domain and set, domains outermost. */
  function PinsByDomain(names: seq<Str>, expirations: seq<Str>): seq<Pin> {
    if names == [] then []
    else PinsByDomain(names[..|names| - 1], expirations) + PinsAll(names[|names| - 1], expirations)
  }

  lemma {:induction false} DomainsDecoded(lib: Lib, cs: seq<Tree>, cleartext: (bool, bool), custom: bool,
      all: seq<Tree>)
    ensures XDomainsPart(lib, DecodeDomains(cs), cleartext, custom, DecodePinSets(all)) ==
            NONE.(domains := DomainPolicies(lib, cs, cleartext, custom),
                pins := PinsByDomain(Names(lib, cs), Expirations(all)))
  {
    hide Is, TextOf, XPins, PinsAll;
    if cs != [] {
      var c := cs[|cs| - 1];
      DomainsDecoded(lib, cs[..|cs| - 1], cleartext, custom, all);
      Snoc(DecodeDomains(cs[..|cs| - 1]), XDomain(TextOf(c, IncludeSubdomains), c.text));
      Snoc(Names(lib, cs[..|cs| - 1]), DomainName(lib, c));
      PinSetsDecoded(lib, DomainName(lib, c), all);
    }
  }

  lemma {:induction false} OneMoreSet(names: seq<Str>, expirations: seq<Str>, e: Str)
    ensures multiset(PinsByDomain(names, expirations + [e])) ==
            multiset(PinsByDomain(names, expirations)) + multiset(PinsFor(names, e))
  {
    if names != [] {
      OneMoreSet(names[..|names| - 1], expirations, e);
      Snoc(expirations, e);
    }
  }

  lemma {:induction false} NoSets(names: seq<Str>)
    ensures PinsByDomain(names, []) == []
  {
    if names != [] { NoSets(names[..|names| - 1]); }
  }

  /** Sets outermost or domains outermost: the same pins. */
  lemma {:induction false} PinProduct(names: seq<Str>, expirations: seq<Str>)
    requires names != []
    ensures multiset(PinsBySet(names, expirations)) == multiset(PinsByDomain(names, expirations))
  {
    hide PinsByDomain, PinsFor;
    if expirations == [] {
      NoSets(names);
    } else {
      var n := |expirations| - 1;
      PinProduct(names, expirations[..n]);
      OneMoreSet(names, expirations[..n], expirations[n]);
      assert expirations[..n] + [expirations[n]] == expirations;
    }
  }

  lemma {:induction false} GlobalPins(expirations: seq<Str>)
    ensures PinsBySet([], expirations) == PinsAll([], expirations)
  {
    if expirations != [] { GlobalPins(expirations[..|expirations| - 1]); }
  }

  lemma {:induction false} NamesOfDomains(lib: Lib, cs: seq<Tree>)
    ensures Without(cs, Domain) ==> Names(lib, cs) == []
  {
    hide Is;
    if cs != [] {
      NamesOfDomains(lib, cs[..|cs| - 1]);
      WithoutLast(cs, Domain);
    }
  }

  /** What the decoded reader makes of a domain-config, in terms of its elements. */
  lemma DomainConfigDecoded(lib: Lib, dc: Tree)
    requires Sane(lib) && AtMostOne(dc.children, Trust)
    ensures var r, t := XDomainPart(lib, DecodeConfig(dc)), DomainPart(lib, dc);
            && r.(pins := []) == t.(pins := [])
            && r.pins == (if Without(dc.children, Domain) then PinsAll([], Expirations(dc.children)) else [])
                         + PinsByDomain(Names(lib, dc.children), Expirations(dc.children))
  {
    var cs := dc.children;
    TrustDecoded(lib, cs);
    PinSetsDecoded(lib, [], cs);
    WithoutDomains(cs);
    DomainsDecoded(lib, cs, ParseBool(lib, TextOf(dc, Cleartext)), XCustom(lib, DecodeTrust(cs)), cs);
    hide XDomainsPart, DecodeDomains, DecodePinSets, DecodeTrust, XCustom, SomeTrust, XOverride, SomePinOverride, XPins,
      DomainPolicies, PinsBySet, PinsByDomain, Names, Expirations, Without;
  }

  /** The pins of a domain-config that only the tree reader sees: those of sets that apply to blank domains only, which
      it takes for global ones. */
  function Lost(lib: Lib, dc: Tree): Part {
    NONE.(pins := if DomainsUsable(lib, dc.children) then [] else PinsAll([], Expirations(dc.children)))
  }

  lemma SomethingIsLost(lib: Lib, dc: Tree)
    ensures Lost(lib, dc).pins == [] <==> DomainsUsable(lib, dc.children)
  {
    WithoutPinSets(dc.children);
  }

  /** The pins of a domain-config in both readers. */
  lemma PinsUpToLost(names: seq<Str>, exps: seq<Str>, none: bool)
    requires none ==> names == []
    ensures var decoded := (if none then PinsAll([], exps) else []) + PinsByDomain(names, exps);
            var lost := if exps == [] || none || names != [] then [] else PinsAll([], exps);
            multiset(PinsBySet(names, exps)) == multiset(decoded + lost)
  {
    hide PinsBySet, PinsAll;
    var byDomain, all, none_: seq<Pin> := PinsByDomain(names, exps), PinsAll([], exps), [];
    if names != [] {
      hide PinsByDomain;
      PinProduct(names, exps);
      assert none_ + byDomain + none_ == byDomain;
    } else {
      GlobalPins(exps);
      assert byDomain == [] && (exps == [] ==> all == []);
      hide PinsByDomain;
      assert all + none_ + none_ == all == none_ + none_ + all;
    }
  }

  /** On a domain-config both readers agree in everything but the lost pins. */
  lemma DomainConfigsAgreeUpToLost(lib: Lib, dc: Tree)
    requires Sane(lib) && AtMostOne(dc.children, Trust)
    ensures Same(DomainPart(lib, dc), Join(XDomainPart(lib, DecodeConfig(dc)), Lost(lib, dc)))
  {
    var cs, names, exps := dc.children, Names(lib, dc.children), Expirations(dc.children);
    var tree, decoded, lost := DomainPart(lib, dc), XDomainPart(lib, DecodeConfig(dc)), Lost(lib, dc);
    DomainConfigDecoded(lib, dc);
    assert tree.pins == PinsBySet(names, exps);
    NamesOfDomains(lib, cs);
    WithoutPinSets(cs);
    PinsUpToLost(names, exps, Without(cs, Domain));
    hide DomainPart, XDomainPart, PinsBySet, PinsAll, PinsByDomain, Without, Names, Expirations, DecodeConfig;
    assert lost.pins == if exps == [] || Without(cs, Domain) || names != [] then [] else PinsAll([], exps);
    assert lost == NONE.(pins := lost.pins);
    hide Lost, Same, DomainsUsable;
    PinsMore(tree, decoded, lost.pins);
  }

  lemma PinsMore(a: Part, b: Part, pins: seq<Pin>)
    requires a.(pins := []) == b.(pins := []) && multiset(a.pins) == multiset(b.pins + pins)
    ensures Same(a, Join(b, NONE.(pins := pins)))
  {
  }

  /** They agree in everything exactly if the pin sets apply to domains both see. */
  lemma DomainConfigsAgreeExactly(lib: Lib, dc: Tree)
    requires Sane(lib) && AtMostOne(dc.children, Trust)
    ensures Same(DomainPart(lib, dc), XDomainPart(lib, DecodeConfig(dc))) <==> DomainsUsable(lib, dc.children)
  {
    assert Lost(lib, dc) == NONE.(pins := Lost(lib, dc).pins);
    hide DomainPart, XDomainPart, Lost, DomainsUsable, DecodeConfig;
    DomainConfigsAgreeUpToLost(lib, dc);
    SomethingIsLost(lib, dc);
    MissingPins(DomainPart(lib, dc), XDomainPart(lib, DecodeConfig(dc)), Lost(lib, dc).pins);
  }

  /** If one side has pins more, the sides are the same exactly if there are none of these. */
  lemma MissingPins(a: Part, b: Part, pins: seq<Pin>)
    requires Same(a, Join(b, NONE.(pins := pins)))
    ensures Same(a, b) <==> pins == []
  {
    assert |multiset(a.pins)| == |multiset(b.pins + pins)| == |multiset(b.pins)| + |pins|;
  }

  // ---- base config ----

  /** What a base-config without nested configs contributes to the tree reader. */
  lemma {:induction false} BaseChildren(lib: Lib, cs: seq<Tree>)
    requires Without(cs, Base) && Without(cs, DomainConfig) && Without(cs, Debug)
    ensures ChildrenPart(lib, cs) ==
            Part([], PinsAll([], Expirations(cs)), Expirations(cs) != [], SomeTrust(lib, cs), SomePinOverride(lib, cs),
                false)
  {
    hide CustomAnchors, Overrides, TextOf, TagOf;
    if cs != [] {
      var c := cs[|cs| - 1];
      WithoutLast(cs, Base);
      WithoutLast(cs, DomainConfig);
      WithoutLast(cs, Debug);
      BaseChildren(lib, cs[..|cs| - 1]);
      Snoc(Expirations(cs[..|cs| - 1]), TextOf(c, Expiration));
    }
  }

  lemma OwnOverride(lib: Lib, b: Tree)
    ensures Overrides(lib, b) <==> lib.isTrue(DecodeConfig(b).overridePins)
  {
  }

  lemma BaseConfigsAgree(lib: Lib, b: Tree)
    requires GoodBase(b)
    ensures NodePart(lib, b) == XBasePart(lib, DecodeConfig(b))
  {
    hide Overrides, TagOf;
    BaseChildren(lib, b.children);
    PinSetsDecoded(lib, [], b.children);
    TrustDecoded(lib, b.children);
    OwnOverride(lib, b);
    hide ChildrenPart, PinsAll, Expirations, SomeTrust, SomePinOverride, DecodePinSets, DecodeTrust, XCustom, XOverride,
         XPins, DecodeDomains;
    hide Without, AtMostOne, TextOf;
    assert NodePart(lib, b) == Join(NONE.(overrides := Overrides(lib, b)), ChildrenPart(lib, b.children));
    hide NodePart;
  }

  lemma {:induction false} NoBase(lib: Lib, before: (bool, bool), cs: seq<Tree>)
    requires Without(cs, Base)
    ensures ChildrenBase(lib, before, cs) == before && DecodeBase(cs) == None
  {
    hide Is;
    if cs != [] {
      WithoutLast(cs, Base);
      NoBase(lib, before, cs[..|cs| - 1]);
    }
  }

  lemma {:induction false} BaseFlagsAgree(lib: Lib, cs: seq<Tree>)
    requires Sane(lib) && GoodChildren(cs)
    ensures ChildrenBase(lib, (false, false), cs) ==
            var b := DecodeBase(cs); if b.Some? then ParseBool(lib, b.value.cleartext) else (false, false)
  {
    hide Is, DecodeTrust, DecodePinSets, DecodeDomains, DomainsUsable, Without;
    if cs != [] {
      var c := cs[|cs| - 1];
      GoodPrefix(lib, cs);
      if Is(c, Base) {
        NoBase(lib, (false, false), cs[..|cs| - 1]);
        NoBase(lib, OwnCleartext(lib, c), c.children);
        NoBase(lib, (false, false), c.children);
      } else {
        BaseFlagsAgree(lib, cs[..|cs| - 1]);
      }
    }
  }

  lemma GoodPrefix(lib: Lib, cs: seq<Tree>)
    requires cs != [] && GoodChildren(cs)
    ensures GoodChildren(cs[..|cs| - 1]) && (Is(cs[|cs| - 1], Base) ==> Without(cs[..|cs| - 1], Base))
    ensures !Is(cs[|cs| - 1], Trust) && !Is(cs[|cs| - 1], PinSet)
    ensures var c := cs[|cs| - 1];
            (Is(c, Base) ==> GoodBase(c)) && (Is(c, DomainConfig) ==> AtMostOne(c.children, Trust))
  {
    hide Is, GoodBase;
    AtMostOneLast(cs, Base);
    WithoutLast(cs, Trust);
    WithoutLast(cs, PinSet);
  }

  // ---- the whole file ----

  /** The contributions the decoded reader sees among the children of the root. */
  function Decoded(lib: Lib, cs: seq<Tree>): Part {
    var b := DecodeBase(cs);
    Join((if b.Some? then XBasePart(lib, b.value) else NONE).(debug := SomeDebug(cs)),
        XDomainParts(lib, DecodeDomainConfigs(cs)))
  }

  /** What the decoded reader misses of them. */
  function LostPins(lib: Lib, cs: seq<Tree>): seq<Pin> {
    if cs == [] then []
    else
      var earlier, c := LostPins(lib, cs[..|cs| - 1]), cs[|cs| - 1];
      if Is(c, DomainConfig) then earlier + Lost(lib, c).pins else earlier
  }

  lemma {:induction false} NothingLostExactly(lib: Lib, cs: seq<Tree>)
    ensures LostPins(lib, cs) == [] <==> AllUsable(lib, cs)
  {
    hide Lost, DomainsUsable, Is;
    if cs != [] {
      var n := |cs| - 1;
      NothingLostExactly(lib, cs[..n]);
      SomethingIsLost(lib, cs[n]);
      assert forall i :: 0 <= i < n ==> cs[..n][i] == cs[i];
    }
  }

  lemma {:induction false} ChildrenAgree(lib: Lib, cs: seq<Tree>)
    requires Sane(lib) && GoodChildren(cs)
    ensures Same(ChildrenPart(lib, cs), Join(Decoded(lib, cs), NONE.(pins := LostPins(lib, cs))))
  {
    if cs != [] {
      hide *;
      GoodPrefix(lib, cs);
      ChildrenAgree(lib, cs[..|cs| - 1]);
      ChildAgrees(lib, cs);
    } else {
      assert Decoded(lib, cs) == NONE;
    }
  }

  lemma BaseChild(lib: Lib, cs: seq<Tree>)
    requires Sane(lib) && cs != [] && Is(cs[|cs| - 1], Base) && GoodBase(cs[|cs| - 1]) && Without(cs[..|cs| - 1], Base)
    ensures Same(Join(Decoded(lib, cs[..|cs| - 1]), ChildPart(lib, cs[|cs| - 1])), Decoded(lib, cs))
  {
    var c, before := cs[|cs| - 1], cs[..|cs| - 1];
    BaseConfigsAgree(lib, c);
    NoBase(lib, (false, false), before);
    var debug, base, rest := NONE.(debug := SomeDebug(before)), XBasePart(lib, DecodeConfig(c)),
        XDomainParts(lib, DecodeDomainConfigs(before));
    assert ChildPart(lib, c) == base && Decoded(lib, before) == Join(debug, rest);
    assert Decoded(lib, cs) == Join(base.(debug := SomeDebug(before)), rest);
    hide XBasePart, XDomainParts, DecodeConfig, SomeDebug, Decoded, ChildPart;
    JoinAssociates(debug, rest, base);
    JoinSwap(rest, base);
    JoinSame(debug, debug, Join(rest, base), Join(base, rest));
    JoinAssociates(debug, base, rest);
    assert !base.debug && base.domains == [] by { BaseShape(lib, c); }
    assert Join(debug, base) == base.(debug := SomeDebug(before));
  }

  lemma BaseShape(lib: Lib, c: Tree)
    ensures !XBasePart(lib, DecodeConfig(c)).debug && XBasePart(lib, DecodeConfig(c)).domains == []
  {
  }

  lemma DomainChild(lib: Lib, cs: seq<Tree>)
    requires cs != [] && Is(cs[|cs| - 1], DomainConfig)
    ensures Join(Decoded(lib, cs[..|cs| - 1]), XDomainPart(lib, DecodeConfig(cs[|cs| - 1]))) == Decoded(lib, cs)
  {
    var c, before := cs[|cs| - 1], cs[..|cs| - 1];
    var b, doms := DecodeBase(before), DecodeDomainConfigs(before);
    var first := (if b.Some? then XBasePart(lib, b.value) else NONE).(debug := SomeDebug(before));
    Snoc(doms, DecodeConfig(c));
    var rest, dec := XDomainParts(lib, doms), XDomainPart(lib, DecodeConfig(c));
    assert Decoded(lib, before) == Join(first, rest);
    assert Decoded(lib, cs) == Join(first, Join(rest, dec));
    hide XBasePart, XDomainParts, XDomainPart, DomainPart, DecodeConfig, SomeDebug, Decoded, ChildPart, Same, Join;
    JoinAssociates(first, rest, dec);
  }

  lemma SameItself(a: Part)
    ensures Same(a, a)
  {
  }

  lemma OtherChild(lib: Lib, cs: seq<Tree>)
    requires cs != [] && TagOf(cs[|cs| - 1].head.name) !in {Base, DomainConfig, Trust, PinSet}
    ensures Same(Join(Decoded(lib, cs[..|cs| - 1]), ChildPart(lib, cs[|cs| - 1])), Decoded(lib, cs))
  {
    hide TagOf, XBasePart, XDomainParts;
    var c, before := cs[|cs| - 1], cs[..|cs| - 1];
    var debug := NONE.(debug := Is(c, Debug));
    assert ChildPart(lib, c) == debug;
    assert DecodeBase(cs) == DecodeBase(before) && DecodeDomainConfigs(cs) == DecodeDomainConfigs(before);
    assert forall s: seq<Pin> :: s + [] == s;
    assert forall s: seq<DomainPolicy> :: s + [] == s;
  }

  /** Pins moved to the end. */
  lemma PinsLast(d: Part, m: seq<Pin>, x: Part, n: seq<Pin>)
    ensures Same(Join(Join(d, NONE.(pins := m)), Join(x, NONE.(pins := n))), Join(Join(d, x), NONE.(pins := m + n)))
  {
  }

  lemma SameTransitive(a: Part, b: Part, c: Part)
    requires Same(a, b) && Same(b, c)
    ensures Same(a, c)
  {
  }

  /** One more child of the root: its contribution, and the pins lost with it. */
  lemma ChildContributes(lib: Lib, cs: seq<Tree>) returns (x: Part, n: seq<Pin>)
    requires Sane(lib) && cs != [] && GoodChildren(cs)
    ensures Same(ChildPart(lib, cs[|cs| - 1]), Join(x, NONE.(pins := n)))
    ensures Same(Join(Decoded(lib, cs[..|cs| - 1]), x), Decoded(lib, cs))
    ensures LostPins(lib, cs) == LostPins(lib, cs[..|cs| - 1]) + n
  {
    var c := cs[|cs| - 1];
    GoodPrefix(lib, cs);
    if Is(c, DomainConfig) {
      x, n := XDomainPart(lib, DecodeConfig(c)), Lost(lib, c).pins;
      assert Lost(lib, c) == NONE.(pins := n);
      assert ChildPart(lib, c) == DomainPart(lib, c);
      assert LostPins(lib, cs) == LostPins(lib, cs[..|cs| - 1]) + n;
      hide ChildPart, Decoded, XDomainPart, DecodeConfig, Lost, GoodChildren, DomainPart, Join, Same, LostPins;
      DomainConfigsAgreeUpToLost(lib, c);
      DomainChild(lib, cs);
    } else {
      x, n := ChildPart(lib, c), [];
      assert LostPins(lib, cs) == LostPins(lib, cs[..|cs| - 1]) + n;
      hide ChildPart, Decoded, GoodChildren, LostPins;
      JoinNone(x);
      SameItself(x);
      hide Join, Same;
      if Is(c, Base) { BaseChild(lib, cs); } else { OtherChild(lib, cs); }
    }
  }

  lemma ChildAgrees(lib: Lib, cs: seq<Tree>)
    requires Sane(lib) && cs != [] && GoodChildren(cs)
    requires var before := cs[..|cs| - 1];
             Same(ChildrenPart(lib, before), Join(Decoded(lib, before), NONE.(pins := LostPins(lib, before))))
    ensures Same(ChildrenPart(lib, cs), Join(Decoded(lib, cs), NONE.(pins := LostPins(lib, cs))))
  {
    var c, before := cs[|cs| - 1], cs[..|cs| - 1];
    assert ChildrenPart(lib, cs) == Join(ChildrenPart(lib, before), ChildPart(lib, c));
    hide ChildrenPart, ChildPart, GoodChildren, Decoded, LostPins, Join, Same;
    var x, n := ChildContributes(lib, cs);
    var d, m := Decoded(lib, before), LostPins(lib, before);
    JoinSame(ChildrenPart(lib, before), Join(d, NONE.(pins := m)), ChildPart(lib, c), Join(x, NONE.(pins := n)));
    PinsLast(d, m, x, n);
    SameItself(NONE.(pins := m + n));
    JoinSame(Join(d, x), Decoded(lib, cs), NONE.(pins := m + n), NONE.(pins := m + n));
    SameTransitive(Join(Join(d, NONE.(pins := m)), Join(x, NONE.(pins := n))), Join(Join(d, x), NONE.(pins := m + n)),
                   Join(Decoded(lib, cs), NONE.(pins := m + n)));
    SameTransitive(ChildrenPart(lib, cs), Join(Join(d, NONE.(pins := m)), Join(x, NONE.(pins := n))),
                   Join(Decoded(lib, cs), NONE.(pins := m + n)));
  }

  lemma RootIsPlain(lib: Lib, root: Tree)
    requires root.head.name == Ascii("network-security-config")
    ensures Is(root, Unknown)
  {
  }

  /** For a config that otherwise keeps to the schema both readers find the same flags, the same domain policies in
      order, and the same pins with the same multiplicities, exactly if the pin sets of every domain-config apply to
      domains both see. */
  lemma ReadersAgree(lib: Lib, root: Tree)
    requires Sane(lib) && GoodRoot(lib, root)
    ensures FromTree(lib, root).base == FromDecoded(lib, Decode(root)).base
    ensures Same(FromTree(lib, root).rest, FromDecoded(lib, Decode(root)).rest) <==> AllUsable(lib, root.children)
  {
    RootIsPlain(lib, root);
    BaseFlagsAgree(lib, root.children);
    ChildrenAgree(lib, root.children);
    NothingLostExactly(lib, root.children);
    assert FromDecoded(lib, Decode(root)).rest == Decoded(lib, root.children);
    hide ChildrenPart, ChildrenBase, GoodChildren, TagOf, TextOf, XBasePart, XDomainParts, DecodeBase,
         DecodeDomainConfigs, SomeDebug, Decoded, AllUsable, LostPins;
    JoinNone(ChildrenPart(lib, root.children));
    MissingPins(ChildrenPart(lib, root.children), Decoded(lib, root.children), LostPins(lib, root.children));
  }

  // ---- a config on which they differ ----

  function Element(name: string, children: seq<Tree>): Tree { Elem(Head(Ascii(name), 0, []), children, []) }

  lemma Tags()
    ensures forall cs :: TagOf(Element("network-security-config", cs).head.name) == Unknown
    ensures forall cs :: TagOf(Element("domain-config", cs).head.name) == DomainConfig
    ensures forall cs :: TagOf(Element("domain", cs).head.name) == Domain
    ensures forall cs :: TagOf(Element("pin-set", cs).head.name) == PinSet
  {
  }

  /** A domain-config with one blank domain and one pin set. */
  const BLANK := Element("domain-config", [Element("domain", []), Element("pin-set", [])])

  lemma BlankIsUnusable(lib: Lib)
    requires Sane(lib)
    ensures AtMostOne(BLANK.children, Trust) && !DomainsUsable(lib, BLANK.children)
    ensures Names(lib, BLANK.children) == [] && Expirations(BLANK.children) == [[]] && !Without(BLANK.children, Domain)
  {
    Tags();
    hide TagOf;
    var domain, pinSet := Element("domain", []), Element("pin-set", []);
    var cs := [domain, pinSet];
    assert BLANK.children == cs;
    assert cs[..1] == [domain] && [domain][..0] == [];
    assert Names(lib, [domain]) == [];
    assert Names(lib, cs) == Names(lib, [domain]);
    assert Expirations([domain]) == [];
    assert Expirations(cs) == Expirations([domain]) + [[]];
    assert Is(cs[0], Domain) && Is(cs[1], PinSet);
  }

  lemma BlankRootIsGood(lib: Lib)
    requires Sane(lib)
    ensures var root := Element("network-security-config", [BLANK]);
            GoodRoot(lib, root) && !AllUsable(lib, root.children)
  {
    Tags();
    BlankIsUnusable(lib);
    hide TagOf, DomainsUsable;
    var root := Element("network-security-config", [BLANK]);
    assert root.children[0] == BLANK && Is(BLANK, DomainConfig);
  }

  /** On it they differ: the tree reader takes the set for a global one, the decoded reader drops it. */
  lemma ReadersDiffer(lib: Lib)
    requires Sane(lib)
    ensures DomainPart(lib, BLANK).pins == [Pin([], [])] && XDomainPart(lib, DecodeConfig(BLANK)).pins == []
    ensures var root := Element("network-security-config", [BLANK]);
            GoodRoot(lib, root) && !Same(FromTree(lib, root).rest, FromDecoded(lib, Decode(root)).rest)
  {
    BlankIsUnusable(lib);
    BlankRootIsGood(lib);
    var none: seq<Str> := [];
    assert [[]][..0] == none && PinsBySet([], none) == [] && PinsBySet([], [[]]) == [Pin([], [])];
    assert PinsByDomain([], [[]]) == [];
    assert DomainPart(lib, BLANK).pins == PinsBySet(Names(lib, BLANK.children), Expirations(BLANK.children));
    hide DomainPart, XDomainPart, FromTree, FromDecoded, Same, GoodRoot, AllUsable, BLANK;
    hide Names, Expirations, Without, DecodeConfig, AtMostOne, PinsByDomain, PinsBySet, PinsAll, DomainsUsable;
    ReadersAgree(lib, Element("network-security-config", [BLANK]));
    DomainConfigDecoded(lib, BLANK);
  }
}
