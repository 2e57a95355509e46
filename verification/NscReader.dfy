/** The two readers as programs that fill in a policy. */
module NscReader {
  import opened Bytes
  import opened Axml
  import opened Nsc

  /** A policy being filled in. */
  class NscPolicy {
    var baseCleartext: bool
    var baseCleartextSet: bool
    var domains: seq<DomainPolicy>
    var pinned: bool
    var pinSets: seq<Pin>
    var customAnchors: bool
    var overridePins: bool
    var debugOverrides: bool

    constructor ()
      ensures Flags() == (false, false) && Rest() == NONE
    {
      baseCleartext, baseCleartextSet, domains, pinned := false, false, [], false;
      pinSets, customAnchors, overridePins, debugOverrides := [], false, false, false;
    }

    function Rest(): Part
      reads this
    {
      Part(domains, pinSets, pinned, customAnchors, overridePins, debugOverrides)
    }

    function Flags(): (bool, bool)
      reads this
    {
      (baseCleartext, baseCleartextSet)
    }

    // ---- the tree reader ----

    /** Reads one node and what is below it; the domain the source passes along is always empty. */
    method ApplyNode(lib: Lib, node: Tree)
      requires Sane(lib)
      modifies this
      ensures Flags() == NodeBase(lib, old(Flags()), node) && Rest() == Join(old(Rest()), NodePart(lib, node))
      decreases node, 0
    {
      hide ChildrenPart, ChildrenBase, ChildPart, NodeBase, NodePart, Lookup, TextOf, Overrides, TagOf, Join;
      ghost var was, start := Rest(), Flags();
      var attr := Lookup(node, Cleartext);
      if attr.Some? && Is(node, Base) {
        baseCleartext, baseCleartextSet := ParseBool(lib, attr.value).0, ParseBool(lib, attr.value).1;
      }
      ApplyOverride(lib, node);
      ghost var flags, own := Flags(), Rest();
      OwnAttributes(lib, node, was, own);
      NodeUnfolds(lib, start, flags, node);
      NoChildren(lib, flags, own);
      for i := 0 to |node.children|
        invariant Flags() == ChildrenBase(lib, flags, node.children[..i])
        invariant Rest() == Join(own, ChildrenPart(lib, node.children[..i]))
      {
        NextChild(lib, flags, own, node.children, i);
        ApplyChild(lib, node.children[i]);
      }
      assert node.children[..|node.children|] == node.children;
      JoinMany(was, NONE.(overrides := Overrides(lib, node)), ChildrenPart(lib, node.children));
    }

    /** Reads one child of the root or of a base-config. */
    method ApplyChild(lib: Lib, c: Tree)
      requires Sane(lib)
      modifies this
      ensures Flags() == if Is(c, Base) then NodeBase(lib, old(Flags()), c) else old(Flags())
      ensures Rest() == Join(old(Rest()), ChildPart(lib, c))
      decreases c, 1
    {
      hide NodeBase, NodePart, TextOf, Overrides, DomainPart, CustomAnchors;
      ghost var was := Rest();
      JoinNone(was);
      match TagOf(c.head.name) {
        case Trust =>
          var custom := ReadTrust(lib, c);
          if custom { customAnchors := true; }
        case PinSet =>
          if Overrides(lib, c) { overridePins := true; }
          pinned := true;
          pinSets := pinSets + [Pin([], TextOf(c, Expiration))];
        case Debug => debugOverrides := true;
        case Base => ApplyNode(lib, c);
        case DomainConfig => ApplyDomainConfig(lib, c);
        case _ =>
      }
    }

    method ReadTrust(lib: Lib, t: Tree) returns (custom: bool)
      ensures custom == CustomAnchors(lib, t)
    {
      hide TextOf, Is, CustomSource;
      var cs := t.children;
      for i := 0 to |cs|
        invariant !SomeCustom(lib, Sources(cs[..i]))
      {
        OneMoreSource(lib, cs, i);
        if Is(cs[i], Certificates) && CustomSource(lib, TextOf(cs[i], Src)) {
          SourceStays(lib, cs, i + 1);
          return true;
        }
      }
      assert cs[..|cs|] == cs;
      custom := false;
    }

    method ApplyOverride(lib: Lib, t: Tree)
      requires Sane(lib)
      modifies this`overridePins
      ensures overridePins == (old(overridePins) || Overrides(lib, t))
    {
      var attr := Lookup(t, OverridePins);
      if attr.Some? && lib.isTrue(attr.value) { overridePins := true; }
    }

    method ApplyDomainConfig(lib: Lib, c: Tree)
      requires Sane(lib)
      modifies this
      ensures Flags() == old(Flags()) && Rest() == Join(old(Rest()), DomainPart(lib, c))
    {
      hide OwnCleartext, SomeTrust, DomainPolicies, Names, Expirations, SomePinOverride, PinsBySet, Overrides;
      ghost var was := Rest();
      var cleartext := OwnCleartext(lib, c);
      var custom := ScanTrust(lib, c.children);
      ApplyOverride(lib, c);
      hide Join, DomainPart;
      AppendDomains(lib, c.children, cleartext, custom);
      AppendPins(lib, c.children);
      DomainParts(lib, was, c);
    }

    method ScanTrust(lib: Lib, cs: seq<Tree>) returns (custom: bool)
      modifies this
      ensures custom == SomeTrust(lib, cs) && Flags() == old(Flags())
      ensures Rest() == old(Rest()).(custom := old(customAnchors) || custom)
    {
      hide Is, CustomAnchors;
      custom := false;
      for i := 0 to |cs|
        invariant custom == SomeTrust(lib, cs[..i]) && Flags() == old(Flags())
        invariant Rest() == old(Rest()).(custom := old(customAnchors) || custom)
      {
        assert cs[..i + 1][..i] == cs[..i];
        if Is(cs[i], Trust) {
          var one := ReadTrust(lib, cs[i]);
          if one { custom, customAnchors := true, true; }
        }
      }
      assert cs[..|cs|] == cs;
    }

    method AppendDomains(lib: Lib, cs: seq<Tree>, cleartext: (bool, bool), custom: bool)
      modifies this`domains
      ensures Flags() == old(Flags()) &&
              Rest() == old(Rest()).(domains := old(domains) + DomainPolicies(lib, cs, cleartext, custom))
    {
      hide Is, TextOf;
      for i := 0 to |cs|
        invariant domains == old(domains) + DomainPolicies(lib, cs[..i], cleartext, custom)
      {
        assert cs[..i + 1][..i] == cs[..i];
        if Is(cs[i], Domain) {
          var name := lib.trim(cs[i].text);
          if name != [] {
            domains := domains + [DomainPolicy(name, lib.isTrue(TextOf(cs[i], IncludeSubdomains)), cleartext, custom)];
          }
        }
      }
      assert cs[..|cs|] == cs;
    }

    method AppendPinSet(lib: Lib, cs: seq<Tree>, set_: Tree)
      modifies this`pinSets, this`pinned, this`overridePins
      ensures pinned && overridePins == (old(overridePins) || Overrides(lib, set_))
      ensures var e, names := TextOf(set_, Expiration), Names(lib, cs);
              pinSets == old(pinSets) + if names == [] then [Pin([], e)] else PinsFor(names, e)
    {
      hide TextOf, Overrides, Names, PinsFor;
      if Overrides(lib, set_) { overridePins := true; }
      pinned := true;
      var more := PinsOfSet(lib, cs, TextOf(set_, Expiration));
      pinSets := pinSets + more;
    }

    method AppendPins(lib: Lib, cs: seq<Tree>)
      modifies this
      ensures Flags() == old(Flags())
      ensures Rest() == old(Rest()).(pins := old(pinSets) + PinsBySet(Names(lib, cs), Expirations(cs)),
                                     pinned := old(pinned) || Expirations(cs) != [],
                                     overrides := old(overridePins) || SomePinOverride(lib, cs))
    {
      hide Is, TextOf, Overrides, Names, PinsBySet, Expirations, SomePinOverride, PinsFor;
      ghost var names := Names(lib, cs);
      NoPinSets(lib, names);
      for i := 0 to |cs|
        invariant Flags() == old(Flags())
        invariant domains == old(domains) && customAnchors == old(customAnchors) &&
                  debugOverrides == old(debugOverrides)
        invariant pinSets == old(pinSets) + PinsBySet(names, Expirations(cs[..i]))
        invariant pinned == (old(pinned) || Expirations(cs[..i]) != [])
        invariant overridePins == (old(overridePins) || SomePinOverride(lib, cs[..i]))
      {
        OneMorePinSet(lib, cs, i);
        if Is(cs[i], PinSet) {
          OneMoreExpiration(names, Expirations(cs[..i]), TextOf(cs[i], Expiration));
          AppendPinSet(lib, cs, cs[i]);
        }
      }
      assert cs[..|cs|] == cs;
    }

    // ---- the decoded reader ----

    method ReadDecoded(lib: Lib, doc: XDocument)
      requires Flags() == (false, false) && Rest() == NONE
      modifies this
      ensures Policy(Flags(), Rest()) == FromDecoded(lib, doc)
    {
      hide XDomainPart, XBasePart, XDomainParts;
      if doc.base.Some? { ReadBase(lib, doc.base.value); }
      debugOverrides := doc.debug;
      ghost var flags, first := Flags(), Rest();
      NoDomainConfigs(lib, first);
      for i := 0 to |doc.domainConfigs|
        invariant Flags() == flags && Rest() == Join(first, XDomainParts(lib, doc.domainConfigs[..i]))
      {
        NextDomainConfig(lib, first, doc.domainConfigs, i);
        ReadDomainConfig(lib, doc.domainConfigs[i]);
      }
      assert doc.domainConfigs[..|doc.domainConfigs|] == doc.domainConfigs;
    }

    method ReadBase(lib: Lib, b: XConfig)
      requires Rest() == NONE
      modifies this
      ensures Flags() == ParseBool(lib, b.cleartext) && Rest() == XBasePart(lib, b)
    {
      hide XCustom, XOverride, XPins, ParseBool;
      var flags := ParseBool(lib, b.cleartext);
      baseCleartext, baseCleartextSet := flags.0, flags.1;
      overridePins := lib.isTrue(b.overridePins);
      customAnchors := XCustom(lib, b.trust);
      pinned := |b.pinSets| > 0;
      var pins, any := ReadPinSets(lib, [], b.pinSets);
      if any { overridePins := true; }
      pinSets := pinSets + pins;
    }

    method ReadDomainConfig(lib: Lib, dc: XConfig)
      modifies this
      ensures Flags() == old(Flags()) && Rest() == Join(old(Rest()), XDomainPart(lib, dc))
    {
      hide XCustom, XOverride, XPins, XDomainsPart, ParseBool, Join;
      JoinMany(Rest(), XOwnPart(lib, dc),
          XDomainsPart(lib, dc.domains, ParseBool(lib, dc.cleartext), XCustom(lib, dc.trust), dc.pinSets));
      ReadOwn(lib, dc);
      ReadDomains(lib, dc, XCustom(lib, dc.trust));
    }

    /** What a domain-config says apart from its domains. */
    method ReadOwn(lib: Lib, dc: XConfig)
      modifies this
      ensures Flags() == old(Flags()) && Rest() == Join(old(Rest()), XOwnPart(lib, dc))
    {
      hide XCustom, XOverride, XPins;
      if lib.isTrue(dc.overridePins) { overridePins := true; }
      if XCustom(lib, dc.trust) { customAnchors := true; }
      NoXPins(lib);
      if |dc.pinSets| > 0 {
        pinned := true;
        var pins, any := ReadPinSets(lib, [], dc.pinSets);
        if |dc.domains| == 0 { pinSets := pinSets + pins; }
        if any { overridePins := true; }
      }
    }

    /** The policies and pins of the non-blank domains. */
    method ReadDomains(lib: Lib, dc: XConfig, custom: bool)
      modifies this
      ensures Flags() == old(Flags())
      ensures Rest() == Join(old(Rest()),
              XDomainsPart(lib, dc.domains, ParseBool(lib, dc.cleartext), custom, dc.pinSets))
    {
      hide XPins, ParseBool, XDomainsPart, Join;
      ghost var was := Rest();
      NoXDomains(lib, was, ParseBool(lib, dc.cleartext), custom, dc.pinSets);
      for i := 0 to |dc.domains|
        invariant Flags() == old(Flags())
        invariant Rest() == Join(was,
                  XDomainsPart(lib, dc.domains[..i], ParseBool(lib, dc.cleartext), custom, dc.pinSets))
      {
        var d := dc.domains[i];
        NextXDomain(lib, was, dc.domains, i, ParseBool(lib, dc.cleartext), custom, dc.pinSets);
        var name := lib.trim(d.name);
        if name == [] { continue; }
        var pins, _ := ReadPinSets(lib, name, dc.pinSets);
        AddOneDomain(DomainPolicy(name, lib.isTrue(d.includeSubdomains), ParseBool(lib, dc.cleartext), custom), pins);
      }
      assert dc.domains[..|dc.domains|] == dc.domains;
    }

    method AddOneDomain(d: DomainPolicy, pins: seq<Pin>)
      modifies this
      ensures Flags() == old(Flags()) && Rest() == Join(old(Rest()), NONE.(domains := [d], pins := pins))
    {
      pinSets := pinSets + pins;
      domains := domains + [d];
    }
  }

  /** A pin for each set, and whether one of them overrides. */
  method ReadPinSets(lib: Lib, domain: Str, sets: seq<XPinSet>) returns (pins: seq<Pin>, any: bool)
    ensures pins == XPins(domain, sets) && any == XOverride(lib, sets)
  {
    pins, any := [], false;
    for i := 0 to |sets|
      invariant pins == XPins(domain, sets[..i]) && any == XOverride(lib, sets[..i])
    {
      assert sets[..i + 1][..i] == sets[..i];
      if lib.isTrue(sets[i].overridePins) { any := true; }
      pins := pins + [Pin(domain, sets[i].expiration)];
    }
    assert sets[..|sets|] == sets;
  }

  /** One pin for each non-blank domain, or a global one. */
  method PinsOfSet(lib: Lib, cs: seq<Tree>, expiration: Str) returns (pins: seq<Pin>)
    ensures pins == if Names(lib, cs) == [] then [Pin([], expiration)] else PinsFor(Names(lib, cs), expiration)
  {
    hide Is;
    pins := [];
    var added := false;
    for i := 0 to |cs|
      invariant pins == PinsFor(Names(lib, cs[..i]), expiration) && (added <==> Names(lib, cs[..i]) != [])
    {
      assert cs[..i + 1][..i] == cs[..i];
      if Is(cs[i], Domain) {
        var name := lib.trim(cs[i].text);
        if name != [] {
          pins := pins + [Pin(name, expiration)];
          added := true;
          assert (Names(lib, cs[..i]) + [name])[..|Names(lib, cs[..i])|] == Names(lib, cs[..i]);
        }
      }
    }
    assert cs[..|cs|] == cs;
    if !added { pins := [Pin([], expiration)]; }
  }

  // ---- joining ----

  lemma JoinMany(a: Part, b: Part, c: Part)
    ensures Join(Join(a, b), c) == Join(a, Join(b, c))
  {
  }

  lemma JoinNone(a: Part)
    ensures Join(a, NONE) == a
  {
  }

  lemma OwnAttributes(lib: Lib, node: Tree, was: Part, own: Part)
    requires own == was.(overrides := was.overrides || Overrides(lib, node))
    ensures own == Join(was, NONE.(overrides := Overrides(lib, node)))
  {
  }

  lemma NodeUnfolds(lib: Lib, start: (bool, bool), flags: (bool, bool), node: Tree)
    requires flags == if Lookup(node, Cleartext).Some? && Is(node, Base) then
             ParseBool(lib, Lookup(node, Cleartext).value) else start
    ensures NodeBase(lib, start, node) == ChildrenBase(lib, flags, node.children)
    ensures NodePart(lib, node) == Join(NONE.(overrides := Overrides(lib, node)), ChildrenPart(lib, node.children))
  {
  }

  lemma NoChildren(lib: Lib, flags: (bool, bool), own: Part)
    ensures ChildrenBase(lib, flags, []) == flags && Join(own, ChildrenPart(lib, [])) == own
  {
  }

  lemma NextChild(lib: Lib, flags: (bool, bool), own: Part, cs: seq<Tree>, i: nat)
    requires i < |cs|
    ensures var before := ChildrenBase(lib, flags, cs[..i]);
            ChildrenBase(lib, flags, cs[..i + 1]) == if Is(cs[i], Base) then NodeBase(lib, before, cs[i]) else before
    ensures Join(Join(own, ChildrenPart(lib, cs[..i])), ChildPart(lib, cs[i])) ==
            Join(own, ChildrenPart(lib, cs[..i + 1]))
  {
    hide ChildPart, NodeBase;
    assert cs[..i + 1][..i] == cs[..i];
    JoinMany(own, ChildrenPart(lib, cs[..i]), ChildPart(lib, cs[i]));
  }

  lemma OneMoreSource(lib: Lib, cs: seq<Tree>, i: nat)
    requires i < |cs|
    ensures SomeCustom(lib, Sources(cs[..i + 1])) <==>
              SomeCustom(lib, Sources(cs[..i])) || (Is(cs[i], Certificates) && CustomSource(lib, TextOf(cs[i], Src)))
  {
    hide Is, TextOf, CustomSource;
    assert cs[..i + 1][..i] == cs[..i];
    if Is(cs[i], Certificates) {
      assert (Sources(cs[..i]) + [TextOf(cs[i], Src)])[..|Sources(cs[..i])|] == Sources(cs[..i]);
    }
  }

  lemma {:induction false} SourceStays(lib: Lib, cs: seq<Tree>, i: nat)
    requires i <= |cs| && SomeCustom(lib, Sources(cs[..i]))
    ensures SomeCustom(lib, Sources(cs))
    decreases |cs| - i
  {
    hide SomeCustom, Sources;
    if i < |cs| {
      OneMoreSource(lib, cs, i);
      SourceStays(lib, cs, i + 1);
    } else {
      assert cs[..i] == cs;
    }
  }

  /** The contributions of a domain-config, one after the other. */
  lemma DomainParts(lib: Lib, was: Part, c: Tree)
    ensures var custom, exps := SomeTrust(lib, c.children), Expirations(c.children);
            Join(was, DomainPart(lib, c))
            == was.(custom := was.custom || custom,
                    domains := was.domains + DomainPolicies(lib, c.children, OwnCleartext(lib, c), custom),
                    pins := was.pins + PinsBySet(Names(lib, c.children), exps), pinned := was.pinned || exps != [],
                    overrides := was.overrides || Overrides(lib, c) || SomePinOverride(lib, c.children))
  {
    hide OwnCleartext, SomeTrust, DomainPolicies, Names, Expirations, SomePinOverride, PinsBySet, Overrides;
  }

  lemma NoPinSets(lib: Lib, names: seq<Str>)
    ensures Expirations([]) == [] && PinsBySet(names, []) == [] && !SomePinOverride(lib, [])
  {
  }

  lemma OneMorePinSet(lib: Lib, cs: seq<Tree>, i: nat)
    requires i < |cs|
    ensures Expirations(cs[..i + 1]) == if Is(cs[i], PinSet) then Expirations(cs[..i]) + [TextOf(cs[i], Expiration)]
                                        else Expirations(cs[..i])
    ensures SomePinOverride(lib, cs[..i + 1]) <==>
            SomePinOverride(lib, cs[..i]) || (Is(cs[i], PinSet) && Overrides(lib, cs[i]))
  {
    assert cs[..i + 1][..i] == cs[..i];
  }

  lemma OneMoreExpiration(names: seq<Str>, before: seq<Str>, e: Str)
    ensures PinsBySet(names, before + [e]) == PinsBySet(names, before) + if names == [] then [Pin([], e)]
                                                                         else PinsFor(names, e)
  {
    assert (before + [e])[..|before|] == before;
  }

  lemma NoXPins(lib: Lib)
    ensures XPins([], []) == [] && !XOverride(lib, [])
  {
  }

  lemma NoDomainConfigs(lib: Lib, first: Part)
    ensures Join(first, XDomainParts(lib, [])) == first
  {
  }

  lemma NextDomainConfig(lib: Lib, first: Part, dcs: seq<XConfig>, i: nat)
    requires i < |dcs|
    ensures Join(Join(first, XDomainParts(lib, dcs[..i])), XDomainPart(lib, dcs[i])) ==
            Join(first, XDomainParts(lib, dcs[..i + 1]))
  {
    hide XDomainPart;
    assert dcs[..i + 1][..i] == dcs[..i];
    JoinMany(first, XDomainParts(lib, dcs[..i]), XDomainPart(lib, dcs[i]));
  }

  lemma NoXDomains(lib: Lib, was: Part, cleartext: (bool, bool), custom: bool, sets: seq<XPinSet>)
    ensures Join(was, XDomainsPart(lib, [], cleartext, custom, sets)) == was
  {
  }

  lemma NextXDomain(lib: Lib, was: Part, ds: seq<XDomain>, i: nat, cleartext: (bool, bool), custom: bool,
      sets: seq<XPinSet>)
    requires i < |ds|
    ensures var before, d, name := Join(was, XDomainsPart(lib, ds[..i], cleartext, custom, sets)), ds[i],
            lib.trim(ds[i].name);
            Join(was, XDomainsPart(lib, ds[..i + 1], cleartext, custom, sets)) ==
            if name == [] then before
            else Join(before, NONE.(domains := [DomainPolicy(name, lib.isTrue(d.includeSubdomains), cleartext, custom)],
                pins := XPins(name, sets)))
  {
    hide XPins;
    assert ds[..i + 1][..i] == ds[..i];
  }
}
