/** The Android network security config, read from decoded XML or from a binary-XML tree.

    The decoded reader works on the structures the XML library fills in, the other one on the element tree.
    `Decode` says what the library makes of a tree; the main result is that both readers then see one policy.
 */
module Nsc {
  import opened Bytes
  import opened Axml

  /** String helpers of the library: white space trimmed, and case-insensitive equality with "true". */
  datatype Lib = Lib(trim: Str -> Str, isTrue: Str -> bool)

  predicate Sane(lib: Lib) { lib.trim([]) == [] && !lib.isTrue([]) }

  /** The element names that matter. */
  datatype Tag = Base | DomainConfig | Debug | Trust | PinSet | Domain | Certificates | Unknown

  function TagOf(name: Str): Tag {
    if name == Ascii("base-config") then Base
    else if name == Ascii("domain-config") then DomainConfig
    else if name == Ascii("debug-overrides") then Debug
    else if name == Ascii("trust-anchors") then Trust
    else if name == Ascii("pin-set") then PinSet
    else if name == Ascii("domain") then Domain
    else if name == Ascii("certificates") then Certificates
    else Unknown
  }

  /** The attribute names that matter. */
  datatype Key = Cleartext | OverridePins | Expiration | IncludeSubdomains | Src

  function KeyName(key: Key): Str {
    match key
    case Cleartext => Ascii("cleartextTrafficPermitted")
    case OverridePins => Ascii("overridePins")
    case Expiration => Ascii("expiration")
    case IncludeSubdomains => Ascii("includeSubdomains")
    case Src => Ascii("src")
  }

  function Is(t: Tree, tag: Tag): bool { TagOf(t.head.name) == tag }

  // ---- the policy ----

  datatype Pin = Pin(domain: Str, expiration: Str)
  datatype DomainPolicy = DomainPolicy(domain: Str, includesSubdomains: bool, cleartext: (bool, bool),
      customAnchors: bool)

  /** What elements contribute to a policy. */
  datatype Part = Part(domains: seq<DomainPolicy>, pins: seq<Pin>, pinned: bool, custom: bool, overrides: bool,
      debug: bool)

  const NONE := Part([], [], false, false, false, false)

  function Join(a: Part, b: Part): Part {
    Part(a.domains + b.domains, a.pins + b.pins, a.pinned || b.pinned, a.custom || b.custom,
         a.overrides || b.overrides, a.debug || b.debug)
  }

  /** A policy: the base cleartext flag and whether it was given, and the contributions. */
  datatype Policy = Policy(base: (bool, bool), rest: Part)

  /** Value and presence of a boolean attribute. */
  function ParseBool(lib: Lib, v: Str): (bool, bool) {
    var t := lib.trim(v);
    if t == [] then (false, false) else (lib.isTrue(t), true)
  }

  predicate CustomSource(lib: Lib, src: Str) {
    var s := lib.trim(src);
    s == Ascii("user") || s == Ascii("*") || (s != [] && s[0] == 0x40)
  }

  // ---- the tree reader ----

  /** The first attribute with a name. */
  function Find(attrs: seq<Attr>, name: Str): Option<Str> {
    if attrs == [] then None else if attrs[0].name == name then Some(attrs[0].value) else Find(attrs[1..], name)
  }

  function Lookup(t: Tree, key: Key): Option<Str> { Find(t.head.attrs, KeyName(key)) }

  function TextOf(t: Tree, key: Key): Str {
    var a := Lookup(t, key);
    if a.Some? then a.value else []
  }

  predicate Overrides(lib: Lib, t: Tree) { lib.isTrue(TextOf(t, OverridePins)) }

  /** The sources of the certificates elements. */
  function Sources(cs: seq<Tree>): seq<Str> {
    if cs == [] then []
    else
      var earlier, c := Sources(cs[..|cs| - 1]), cs[|cs| - 1];
      if Is(c, Certificates) then earlier + [TextOf(c, Src)] else earlier
  }

  predicate SomeCustom(lib: Lib, sources: seq<Str>) {
    sources != [] && (SomeCustom(lib, sources[..|sources| - 1]) || CustomSource(lib, sources[|sources| - 1]))
  }

  /** A trust-anchors element lists a source other than the system's. */
  predicate CustomAnchors(lib: Lib, t: Tree) { SomeCustom(lib, Sources(t.children)) }

  function DomainName(lib: Lib, d: Tree): Str { lib.trim(d.text) }

  /** The names of the non-blank domain elements, in order. */
  function Names(lib: Lib, cs: seq<Tree>): seq<Str> {
    if cs == [] then []
    else
      var earlier, c := Names(lib, cs[..|cs| - 1]), cs[|cs| - 1];
      if Is(c, Domain) && DomainName(lib, c) != [] then earlier + [DomainName(lib, c)] else earlier
  }

  /** The expirations of the pin sets, in order. */
  function Expirations(cs: seq<Tree>): seq<Str> {
    if cs == [] then []
    else
      var earlier, c := Expirations(cs[..|cs| - 1]), cs[|cs| - 1];
      if Is(c, PinSet) then earlier + [TextOf(c, Expiration)] else earlier
  }

  predicate SomeTrust(lib: Lib, cs: seq<Tree>) {
    cs != [] && (SomeTrust(lib, cs[..|cs| - 1]) || (Is(cs[|cs| - 1], Trust) && CustomAnchors(lib, cs[|cs| - 1])))
  }

  predicate SomePinOverride(lib: Lib, cs: seq<Tree>) {
    cs != [] && (SomePinOverride(lib, cs[..|cs| - 1]) || (Is(cs[|cs| - 1], PinSet) && Overrides(lib, cs[|cs| - 1])))
  }

  /** The domain policies of a domain-config. */
  function DomainPolicies(lib: Lib, cs: seq<Tree>, cleartext: (bool, bool), custom: bool): seq<DomainPolicy> {
    if cs == [] then []
    else
      var earlier, d := DomainPolicies(lib, cs[..|cs| - 1], cleartext, custom), cs[|cs| - 1];
      if Is(d, Domain) && DomainName(lib, d) != []
      then earlier + [DomainPolicy(DomainName(lib, d), lib.isTrue(TextOf(d, IncludeSubdomains)), cleartext, custom)]
      else earlier
  }

  function PinsFor(names: seq<Str>, expiration: Str): seq<Pin> {
    if names == [] then [] else PinsFor(names[..|names| - 1], expiration) + [Pin(names[|names| - 1], expiration)]
  }

  /** One pin per set and domain, sets outermost; a set without domains applies globally. */
  function PinsBySet(names: seq<Str>, expirations: seq<Str>): seq<Pin> {
    if expirations == [] then []
    else
      var e := expirations[|expirations| - 1];
      PinsBySet(names, expirations[..|expirations| - 1]) + if names == [] then [Pin([], e)] else PinsFor(names, e)
  }

  function OwnCleartext(lib: Lib, t: Tree): (bool, bool) {
    var a := Lookup(t, Cleartext);
    if a.Some? then ParseBool(lib, a.value) else (false, false)
  }

  /** What a domain-config contributes. */
  function DomainPart(lib: Lib, dc: Tree): Part {
    var custom := SomeTrust(lib, dc.children);
    Part(DomainPolicies(lib, dc.children, OwnCleartext(lib, dc), custom),
         PinsBySet(Names(lib, dc.children), Expirations(dc.children)),
         Expirations(dc.children) != [], custom, Overrides(lib, dc) || SomePinOverride(lib, dc.children), false)
  }

  /** What a child of the root or of a base-config contributes. */
  function ChildPart(lib: Lib, c: Tree): Part
    decreases c, 1
  {
    match TagOf(c.head.name)
    case Trust => NONE.(custom := CustomAnchors(lib, c))
    case PinSet => Part([], [Pin([], TextOf(c, Expiration))], true, false, Overrides(lib, c), false)
    case Debug => NONE.(debug := true)
    case Base => NodePart(lib, c)
    case DomainConfig => DomainPart(lib, c)
    case _ => NONE
  }

  function ChildrenPart(lib: Lib, cs: seq<Tree>): Part
    decreases cs
  {
    if cs == [] then NONE else Join(ChildrenPart(lib, cs[..|cs| - 1]), ChildPart(lib, cs[|cs| - 1]))
  }

  function NodePart(lib: Lib, node: Tree): Part
    decreases node, 0
  {
    Join(NONE.(overrides := Overrides(lib, node)), ChildrenPart(lib, node.children))
  }

  /** The base flags after a node: the last base-config that has the attribute decides. */
  function NodeBase(lib: Lib, before: (bool, bool), node: Tree): (bool, bool)
    decreases node, 0
  {
    ChildrenBase(lib, if Is(node, Base) && Lookup(node, Cleartext).Some? then OwnCleartext(lib, node)
                      else before, node.children)
  }

  function ChildrenBase(lib: Lib, before: (bool, bool), cs: seq<Tree>): (bool, bool)
    decreases cs
  {
    if cs == [] then before
    else
      var earlier, c := ChildrenBase(lib, before, cs[..|cs| - 1]), cs[|cs| - 1];
      if Is(c, Base) then NodeBase(lib, earlier, c) else earlier
  }

  function FromTree(lib: Lib, root: Tree): Policy {
    Policy(NodeBase(lib, (false, false), root), NodePart(lib, root))
  }

  // ---- the decoded reader ----

  datatype XPinSet = XPinSet(expiration: Str, overridePins: Str)
  datatype XDomain = XDomain(includeSubdomains: Str, name: Str)
  /** A base-config or domain-config; only the latter has domains. The trust anchors are the certificate sources. */
  datatype XConfig = XConfig(cleartext: Str, overridePins: Str, trust: Option<seq<Str>>, pinSets: seq<XPinSet>,
      domains: seq<XDomain>)
  datatype XDocument = XDocument(base: Option<XConfig>, domainConfigs: seq<XConfig>, debug: bool)

  predicate XCustom(lib: Lib, trust: Option<seq<Str>>) {
    trust.Some? && SomeCustom(lib, trust.value)
  }

  predicate XOverride(lib: Lib, pinSets: seq<XPinSet>) {
    pinSets != [] && (XOverride(lib, pinSets[..|pinSets| - 1]) || lib.isTrue(pinSets[|pinSets| - 1].overridePins))
  }

  function XPins(domain: Str, pinSets: seq<XPinSet>): seq<Pin> {
    if pinSets == [] then []
    else XPins(domain, pinSets[..|pinSets| - 1]) + [Pin(domain, pinSets[|pinSets| - 1].expiration)]
  }

  function XBasePart(lib: Lib, b: XConfig): Part {
    Part([], XPins([], b.pinSets), b.pinSets != [], XCustom(lib, b.trust),
         lib.isTrue(b.overridePins) || XOverride(lib, b.pinSets), false)
  }

  /** The policies and pins of the non-blank domains, domains outermost. */
  function XDomainsPart(lib: Lib, domains: seq<XDomain>, cleartext: (bool, bool), custom: bool,
      pinSets: seq<XPinSet>): Part {
    if domains == [] then NONE
    else
      var d, earlier := domains[|domains| - 1], XDomainsPart(lib, domains[..|domains| - 1], cleartext, custom, pinSets);
      var name := lib.trim(d.name);
      if name == [] then earlier
      else
        Join(earlier, NONE.(domains := [DomainPolicy(name, lib.isTrue(d.includeSubdomains), cleartext, custom)],
            pins := XPins(name, pinSets)))
  }

  /** A domain-config apart from its domains; its pins are global if it has none. */
  function XOwnPart(lib: Lib, dc: XConfig): Part {
    Part([], if dc.domains == [] then XPins([], dc.pinSets) else [], dc.pinSets != [], XCustom(lib, dc.trust),
         lib.isTrue(dc.overridePins) || XOverride(lib, dc.pinSets), false)
  }

  function XDomainPart(lib: Lib, dc: XConfig): Part {
    Join(XOwnPart(lib, dc),
         XDomainsPart(lib, dc.domains, ParseBool(lib, dc.cleartext), XCustom(lib, dc.trust), dc.pinSets))
  }

  function XDomainParts(lib: Lib, dcs: seq<XConfig>): Part {
    if dcs == [] then NONE else Join(XDomainParts(lib, dcs[..|dcs| - 1]), XDomainPart(lib, dcs[|dcs| - 1]))
  }

  function FromDecoded(lib: Lib, doc: XDocument): Policy {
    var first := if doc.base.Some? then XBasePart(lib, doc.base.value) else NONE;
    Policy(if doc.base.Some? then ParseBool(lib, doc.base.value.cleartext) else (false, false),
           Join(first.(debug := doc.debug), XDomainParts(lib, doc.domainConfigs)))
  }

  // ---- what the XML library makes of a tree ----

  function DecodePinSets(cs: seq<Tree>): seq<XPinSet> {
    if cs == [] then []
    else
      var earlier, c := DecodePinSets(cs[..|cs| - 1]), cs[|cs| - 1];
      if Is(c, PinSet) then earlier + [XPinSet(TextOf(c, Expiration), TextOf(c, OverridePins))] else earlier
  }

  function DecodeDomains(cs: seq<Tree>): seq<XDomain> {
    if cs == [] then []
    else
      var earlier, c := DecodeDomains(cs[..|cs| - 1]), cs[|cs| - 1];
      if Is(c, Domain) then earlier + [XDomain(TextOf(c, IncludeSubdomains), c.text)] else earlier
  }

  /** The sources of the trust-anchors element, of which there is at most one. */
  function DecodeTrust(cs: seq<Tree>): Option<seq<Str>> {
    if cs == [] then None
    else if Is(cs[|cs| - 1], Trust) then Some(Sources(cs[|cs| - 1].children))
    else DecodeTrust(cs[..|cs| - 1])
  }

  function DecodeConfig(c: Tree): XConfig {
    XConfig(TextOf(c, Cleartext), TextOf(c, OverridePins), DecodeTrust(c.children), DecodePinSets(c.children),
        DecodeDomains(c.children))
  }

  function DecodeBase(cs: seq<Tree>): Option<XConfig> {
    if cs == [] then None
    else if Is(cs[|cs| - 1], Base) then Some(DecodeConfig(cs[|cs| - 1]))
    else DecodeBase(cs[..|cs| - 1])
  }

  function DecodeDomainConfigs(cs: seq<Tree>): seq<XConfig> {
    if cs == [] then []
    else
      var earlier, c := DecodeDomainConfigs(cs[..|cs| - 1]), cs[|cs| - 1];
      if Is(c, DomainConfig) then earlier + [DecodeConfig(c)] else earlier
  }

  predicate SomeDebug(cs: seq<Tree>) { cs != [] && (SomeDebug(cs[..|cs| - 1]) || Is(cs[|cs| - 1], Debug)) }

  function Decode(root: Tree): XDocument {
    XDocument(DecodeBase(root.children), DecodeDomainConfigs(root.children), SomeDebug(root.children))
  }

  // ---- the schema ----

  predicate AtMostOne(cs: seq<Tree>, tag: Tag) {
    forall i, j :: 0 <= i < j < |cs| ==> !(Is(cs[i], tag) && Is(cs[j], tag))
  }

  predicate Without(cs: seq<Tree>, tag: Tag) { forall i :: 0 <= i < |cs| ==> !Is(cs[i], tag) }

  /** The pin sets of a domain-config apply to domains both readers see: it has no pin set, no domain element, or a
      non-blank one. */
  predicate DomainsUsable(lib: Lib, cs: seq<Tree>) {
    Without(cs, PinSet) || Without(cs, Domain) || Names(lib, cs) != []
  }

  predicate GoodBase(b: Tree) {
    AtMostOne(b.children, Trust) && Without(b.children, Base) && Without(b.children, DomainConfig) &&
        Without(b.children, Debug)
  }

  predicate GoodChildren(cs: seq<Tree>) {
    && Without(cs, Trust) && Without(cs, PinSet) && AtMostOne(cs, Base)
    && forall i :: 0 <= i < |cs| ==>
         (Is(cs[i], Base) ==> GoodBase(cs[i])) && (Is(cs[i], DomainConfig) ==> AtMostOne(cs[i].children, Trust))
  }

  /** The rest of the schema, as far as it matters. */
  predicate GoodRoot(lib: Lib, root: Tree) {
    root.head.name == Ascii("network-security-config") && !Overrides(lib, root) && GoodChildren(root.children)
  }

  predicate AllUsable(lib: Lib, cs: seq<Tree>) {
    forall i :: 0 <= i < |cs| && Is(cs[i], DomainConfig) ==> DomainsUsable(lib, cs[i].children)
  }
}
