/** Findings drawn from a network security policy. */
module NscFindings {
  import opened Bytes
  import opened Axml
  import opened Nsc
  import opened NscReader
  import AxmlEncoder
  import NscAgree
  import StringPool

  datatype Finding =
    | BaseCleartext
    | DomainCleartext(domain: Str, wildcard: bool)
    | CustomTrust
    | DebugPresent
    | Pinned
    | NoExpiration(domain: Str)
    | Expired(domain: Str, date: Str)
    | PinOverride

  /** The clock and date parser: an expiration's date and whether it has passed; none if it is no date. */
  type Calendar = Str -> Option<(Str, bool)>

  function DomainFindings(domains: seq<DomainPolicy>): seq<Finding> {
    if domains == [] then []
    else
      var earlier, d := DomainFindings(domains[..|domains| - 1]), domains[|domains| - 1];
      if d.cleartext.0 then earlier + [DomainCleartext(d.domain, d.includesSubdomains)] else earlier
  }

  /** The finding about one pin, if any. */
  function PinFinding(calendar: Calendar, pin: Pin): seq<Finding> {
    match calendar(pin.expiration)
    case None => [NoExpiration(pin.domain)]
    case Some((date, passed)) => if passed then [Expired(pin.domain, date)] else []
  }

  function PinFindings(calendar: Calendar, pins: seq<Pin>): seq<Finding> {
    if pins == [] then [] else PinFindings(calendar, pins[..|pins| - 1]) + PinFinding(calendar, pins[|pins| - 1])
  }

  function When(c: bool, f: Finding): seq<Finding> { if c then [f] else [] }

  function PinningFindings(calendar: Calendar, p: Part): seq<Finding> {
    if !p.pinned then []
    else [Pinned] + When(p.pins == [], NoExpiration([])) + PinFindings(calendar, p.pins)
  }

  function Findings(calendar: Calendar, p: Policy): seq<Finding> {
    When(p.base.0, BaseCleartext) + DomainFindings(p.rest.domains) + When(p.rest.custom, CustomTrust)
    + When(p.rest.debug, DebugPresent) + PinningFindings(calendar, p.rest) + When(p.rest.overrides, PinOverride)
  }

  method NetworkFindings(calendar: Calendar, p: Policy) returns (fs: seq<Finding>)
    ensures fs == Findings(calendar, p)
  {
    hide DomainFindings, PinningFindings;
    fs := [];
    if p.base.0 { fs := fs + [BaseCleartext]; }
    assert fs == When(p.base.0, BaseCleartext);
    var domains := ReportDomains(p.rest.domains);
    fs := fs + domains;
    if p.rest.custom { fs := fs + [CustomTrust]; }
    if p.rest.debug { fs := fs + [DebugPresent]; }
    assert fs == When(p.base.0, BaseCleartext) + DomainFindings(p.rest.domains) + When(p.rest.custom, CustomTrust)
                 + When(p.rest.debug, DebugPresent);
    var pinning := ReportPins(calendar, p.rest);
    fs := fs + pinning;
    if p.rest.overrides { fs := fs + [PinOverride]; }
  }

  method ReportDomains(domains: seq<DomainPolicy>) returns (fs: seq<Finding>)
    ensures fs == DomainFindings(domains)
  {
    fs := [];
    for i := 0 to |domains|
      invariant fs == DomainFindings(domains[..i])
    {
      assert domains[..i + 1][..i] == domains[..i];
      var d := domains[i];
      if !d.cleartext.0 { continue; }
      fs := fs + [DomainCleartext(d.domain, d.includesSubdomains)];
    }
    assert domains[..|domains|] == domains;
  }

  method ReportPins(calendar: Calendar, p: Part) returns (fs: seq<Finding>)
    ensures fs == PinningFindings(calendar, p)
  {
    if !p.pinned { return []; }
    fs := [Pinned];
    if |p.pins| == 0 { fs := fs + [NoExpiration([])]; }
    ghost var first := fs;
    for i := 0 to |p.pins|
      invariant fs == first + PinFindings(calendar, p.pins[..i])
    {
      assert p.pins[..i + 1][..i] == p.pins[..i];
      var pin := p.pins[i];
      var expiry := calendar(pin.expiration);
      if expiry.None? {
        fs := fs + [NoExpiration(pin.domain)];
        continue;
      }
      if expiry.value.1 { fs := fs + [Expired(pin.domain, expiry.value.0)]; }
    }
    assert p.pins[..|p.pins|] == p.pins;
  }

  // ---- the order of pins does not matter ----

  lemma LastPin(calendar: Calendar, pins: seq<Pin>)
    requires pins != []
    ensures multiset(PinFindings(calendar, pins))
         == multiset(PinFindings(calendar, pins[..|pins| - 1])) + multiset(PinFinding(calendar, pins[|pins| - 1]))
  {
  }

  /** Removing one pin removes its finding. */
  lemma {:induction false} WithoutPin(calendar: Calendar, pins: seq<Pin>, i: nat)
    requires i < |pins|
    ensures multiset(PinFindings(calendar, pins)) ==
            multiset(PinFindings(calendar, pins[..i] + pins[i + 1..])) + multiset(PinFinding(calendar, pins[i]))
  {
    hide PinFinding, PinFindings;
    var n := |pins| - 1;
    var rest := pins[..i] + pins[i + 1..];
    LastPin(calendar, pins);
    if i < n {
      WithoutPin(calendar, pins[..n], i);
      LastPin(calendar, rest);
      assert pins[..n][..i] + pins[..n][i + 1..] == rest[..n - 1] && pins[..n][i] == pins[i] && rest[n - 1] == pins[n];
    } else {
      assert rest == pins[..n];
    }
  }

  lemma RemoveOne<T>(s: seq<T>, i: nat)
    requires i < |s|
    ensures multiset(s[..i] + s[i + 1..]) == multiset(s) - multiset{s[i]}
  {
    assert s == s[..i] + [s[i]] + s[i + 1..];
  }

  /** A pin of one list is found in a permutation of it, and what is left are permutations. */
  lemma TakeOne(a: seq<Pin>, b: seq<Pin>) returns (i: nat)
    requires multiset(a) == multiset(b) && a != []
    ensures i < |b| && b[i] == a[|a| - 1]
    ensures multiset(a[..|a| - 1]) == multiset(b[..i] + b[i + 1..])
  {
    var n := |a| - 1;
    assert a[n] in multiset(b);
    i :| 0 <= i < |b| && b[i] == a[n];
    RemoveOne(a, n);
    RemoveOne(b, i);
    assert a[..n] + a[n + 1..] == a[..n];
  }

  lemma {:induction false} PinOrder(calendar: Calendar, a: seq<Pin>, b: seq<Pin>)
    requires multiset(a) == multiset(b)
    ensures multiset(PinFindings(calendar, a)) == multiset(PinFindings(calendar, b))
    decreases |a|
  {
    if a == [] {
      assert |multiset(b)| == 0;
    } else {
      var n := |a| - 1;
      var i := TakeOne(a, b);
      assert PinFindings(calendar, a) == PinFindings(calendar, a[..n]) + PinFinding(calendar, a[n]);
      hide PinFindings, PinFinding;
      PinOrder(calendar, a[..n], b[..i] + b[i + 1..]);
      WithoutPin(calendar, b, i);
    }
  }

  /** Policies that differ in the order of pins only give the same findings, equally often. */
  lemma SameFindings(calendar: Calendar, p: Policy, q: Policy)
    requires p.base == q.base && NscAgree.Same(p.rest, q.rest)
    ensures multiset(Findings(calendar, p)) == multiset(Findings(calendar, q))
  {
    PinOrder(calendar, p.rest.pins, q.rest.pins);
    assert |multiset(p.rest.pins)| == |multiset(q.rest.pins)|;
    assert p.rest.pins == [] <==> q.rest.pins == [];
    hide PinFindings, DomainFindings;
  }

  /** The decoded file and the compiled file give the same findings, equally often. */
  lemma BothFormsReportTheSame(lib: Lib, calendar: Calendar, root: Tree)
    requires Sane(lib) && GoodRoot(lib, root) && AllUsable(lib, root.children)
    ensures multiset(Findings(calendar, FromTree(lib, root))) ==
            multiset(Findings(calendar, FromDecoded(lib, Decode(root))))
  {
    hide *;
    NscAgree.ReadersAgree(lib, root);
    SameFindings(calendar, FromTree(lib, root), FromDecoded(lib, Decode(root)));
  }

  /** From source to findings: compile a config to binary XML in any way, parse the bytes and report, or decode the
      XML and report; the findings are the same. The way of compiling is the layout and the order of the string
      pool, the resource map, the text runs of the document, and which attributes keep their raw value. */
  lemma CompilingKeepsFindings(env: Env, layout: StringPool.Layout, pool: StringPool.Pool, ids: seq<U32>,
                               raw: AxmlEncoder.RawChoice, doc: AxmlEncoder.Doc, lib: Lib, calendar: Calendar)
    requires Sane(lib) && GoodRoot(lib, AxmlEncoder.Denote(doc)) && AllUsable(lib, AxmlEncoder.Denote(doc).children)
    requires StringPool.Encodable(layout, env.utf16, pool) && AxmlEncoder.MapFits(ids)
    requires AxmlEncoder.DocFits(env, Context(Some(pool), ids), raw, doc)
    ensures var parsed := Parse(env, AxmlEncoder.Document(env, layout, pool, ids, raw, doc));
            && parsed.root.Some? && parsed.error.None?
            && multiset(Findings(calendar, FromTree(lib, parsed.root.value)))
               == multiset(Findings(calendar, FromDecoded(lib, Decode(AxmlEncoder.Denote(doc)))))
  {
    hide *;
    AxmlEncoder.ParseUndoesDocument(env, layout, pool, ids, raw, doc);
    BothFormsReportTheSame(lib, calendar, AxmlEncoder.Denote(doc));
  }

  /** Reading a compiled config and reporting on it. */
  method ReportTree(lib: Lib, calendar: Calendar, root: Tree) returns (fs: seq<Finding>)
    requires Sane(lib)
    ensures fs == Findings(calendar, FromTree(lib, root))
  {
    hide NodePart, NodeBase, Findings;
    var policy := new NscPolicy();
    policy.ApplyNode(lib, root);
    NscReader.JoinMany(NONE, NONE, NodePart(lib, root));
    assert Join(NONE, NodePart(lib, root)) == NodePart(lib, root);
    fs := NetworkFindings(calendar, Policy(policy.Flags(), policy.Rest()));
  }

  /** Reading a decoded config and reporting on it. */
  method ReportDecoded(lib: Lib, calendar: Calendar, doc: XDocument) returns (fs: seq<Finding>)
    ensures fs == Findings(calendar, FromDecoded(lib, doc))
  {
    hide FromDecoded, Findings;
    var policy := new NscPolicy();
    policy.ReadDecoded(lib, doc);
    fs := NetworkFindings(calendar, Policy(policy.Flags(), policy.Rest()));
  }
}
