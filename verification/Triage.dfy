/** Model triage of a batch of findings, as a run.

    The world answers through oracles: provider availability, cancellation, rendered prompts, the answer
    cache, the outcome of every call, and the parser of answers. The run's log records each routing decision
    and each call, and the policy is stated over the whole log.
 */
module Triage {
  import opened Bytes
  import opened Findings
  import Cluster
  import Retry
  import Router

  type Route = Router.Route
  type Routed = Result<Route, Router.RouteError>

  /** A parsed model answer. */
  datatype Response = Response(verdict: string, confidence: real, explanation: string, remediation: string)

  /** What a model charged for. */
  type Usage = nat

  datatype Env = Env(cfg: Router.Config, providers: Router.Providers, displayName: string -> string,
      retry: Retry.Config)

  /** The world's answers; those about one finding are given by its position. */
  datatype World = World(
    health: bool -> Router.Health,
    cancelled: nat -> bool,
    prompt: (Finding, Route) -> Option<string>,
    cached: (nat, Route, string) -> Option<string>,
    calls: nat -> Retry.Oracle,
    reply: nat -> (string, Usage),
    parse: string -> Option<Response>,
    redact: string -> string,
    price: (string, Usage) -> real,
    describe: Failure -> string)

  /** Why a finding could not be triaged. */
  datatype Failure = NoRoute(reason: Router.RouteError) | NoPrompt | NoAnswer(final: Retry.Final)

  /** A failure that the caller maps to its policy exit code. */
  predicate PolicyFailure(e: Failure) {
    match e
    case NoRoute(reason) => reason == Router.CloudNotAllowed || reason == Router.ProviderUnavailable
    case NoPrompt => false
    case NoAnswer(final) =>
      match final
      case Permanent(err) => Retry.CloudNotAllowed in err.tags || Retry.ProviderUnavailable in err.tags
      case Exhausted(err) => Retry.CloudNotAllowed in err.tags || Retry.ProviderUnavailable in err.tags
      case _ => false
  }

  predicate Eligible(f: Finding) { f.needsTriage && f.severity != "info" }

  predicate CarriesSecret(f: Finding) { f.category == "secret" || f.sensitivity == "secret" }

  // ---- one finding ----

  function Verdict(text: string): string {
    if text == "confirmed" then "confirmed" else if text == "likely_fp" then "likely_fp" else "inconclusive"
  }

  /** The finding after an answer has been applied to it. */
  function Applied(env: Env, w: World, f: Finding, route: Route, raw: string, usage: Usage): Finding {
    var named := f.(rawResponse := w.redact(raw),
                    llm := f.llm.(provider := env.displayName(route.provider), modelName := route.modelName));
    match w.parse(raw)
    case None => named.(llm := named.llm.(verdict := "inconclusive", explanation := "failed to parse LLM response"))
    case Some(r) =>
      named.(cost := w.price(route.modelName, usage),
             llm := named.llm.(verdict := Verdict(r.verdict), confidence := r.confidence,
                               explanation := r.explanation, remediation := r.remediation))
  }

  function Inconclusive(f: Finding, why: string): Finding {
    f.(llm := f.llm.(verdict := "inconclusive", explanation := why))
  }

  /** Whether a finding's prompt is sent to the provider at all. */
  predicate Sends(w: World, i: nat, f: Finding, route: Route) {
    w.prompt(f, route).Some? && w.cached(i, route, w.prompt(f, route).value).None?
  }

  /** The failure of a routed finding, if any. */
  function Failed(env: Env, w: World, i: nat, f: Finding, route: Route): Option<Failure> {
    if w.prompt(f, route).None? then Some(NoPrompt)
    else if !Sends(w, i, f, route) then None
    else
      var final := Retry.WithRetry(env.retry, w.calls(i)).final;
      if final.Succeeded? then None else Some(NoAnswer(final))
  }

  /** A routed finding after its turn. */
  function Consulted(env: Env, w: World, i: nat, f: Finding, route: Route): Finding {
    match Failed(env, w, i, f, route)
    case Some(e) => Inconclusive(f, "triage error: " + w.describe(e))
    case None =>
      if Sends(w, i, f, route) then Applied(env, w, f, route, w.reply(i).0, w.reply(i).1)
      else Applied(env, w, f, route, w.cached(i, route, w.prompt(f, route).value).value, 0)
  }

  /** A finding after its turn, given how its kind was routed. */
  function Judged(env: Env, w: World, i: nat, f: Finding, routed: Routed): Finding {
    match routed
    case Err(reason) => Inconclusive(f, "routing failed: " + w.describe(NoRoute(reason)))
    case Ok(route) => Consulted(env, w, i, f, route)
  }

  function FailureOf(env: Env, w: World, i: nat, f: Finding, routed: Routed): Option<Failure> {
    match routed
    case Err(reason) => Some(NoRoute(reason))
    case Ok(route) => Failed(env, w, i, f, route)
  }

  // ---- the log ----

  datatype Event = Decided(secret: bool) | Asked(number: nat, provider: string)

  function Repeat(e: Event, n: nat): (r: seq<Event>)
    ensures |r| == n && forall k :: 0 <= k < n ==> r[k] == e
  {
    seq(n, _ => e)
  }

  /** The calls a routed finding makes. */
  function CallsOf(env: Env, w: World, i: nat, f: Finding, routed: Routed): seq<Event> {
    if routed.Ok? && Sends(w, i, f, routed.value)
    then Repeat(Asked(i, routed.value.provider), Retry.Calls(Retry.WithRetry(env.retry, w.calls(i)).events))
    else []
  }

  // ---- the batch, as functions of its prefix ----

  type Routes = map<bool, Routed>

  /** Some eligible finding among the first n does, or does not, carry a secret. */
  predicate Needed(fs: seq<Finding>, n: nat, secret: bool)
    requires n <= |fs|
  {
    exists k :: 0 <= k < n && Eligible(fs[k]) && CarriesSecret(fs[k]) == secret
  }

  /** A route is decided for each kind of finding met, and for no other. */
  ghost predicate RoutesFit(env: Env, w: World, fs: seq<Finding>, n: nat, routes: Routes)
    requires n <= |fs|
  {
    && (forall secret :: secret in routes <==> Needed(fs, n, secret))
    && (forall secret :: secret in routes ==>
        Router.IsRouted(env.cfg, env.providers, w.health(secret), "triage", secret, routes[secret]))
  }

  /** Every kind of eligible finding has a route. */
  predicate Covers(fs: seq<Finding>, n: nat, routes: Routes)
    requires n <= |fs|
  {
    forall k :: 0 <= k < n && Eligible(fs[k]) ==> CarriesSecret(fs[k]) in routes
  }

  /** Findings that had a route. */
  function Processed(fs: seq<Finding>, n: nat, routes: Routes): nat
    requires n <= |fs| && Covers(fs, n, routes)
  {
    if n == 0 then 0
    else Processed(fs, n - 1, routes) + if Eligible(fs[n - 1]) && routes[CarriesSecret(fs[n - 1])].Ok? then 1 else 0
  }

  /** The first policy failure. */
  function FirstPolicyFailure(env: Env, w: World, fs: seq<Finding>, n: nat, routes: Routes): Option<Failure>
    requires n <= |fs| && Covers(fs, n, routes)
  {
    if n == 0 then None
    else
      var earlier := FirstPolicyFailure(env, w, fs, n - 1, routes);
      if earlier.Some? || !Eligible(fs[n - 1]) then earlier
      else
        var e := FailureOf(env, w, n - 1, fs[n - 1], routes[CarriesSecret(fs[n - 1])]);
        if e.Some? && PolicyFailure(e.value) then e else None
  }

  /** Decisions are made when a kind is first met; calls follow. */
  function Log(env: Env, w: World, fs: seq<Finding>, n: nat, routes: Routes): seq<Event>
    requires n <= |fs| && Covers(fs, n, routes)
  {
    if n == 0 then []
    else
      var f, i := fs[n - 1], n - 1;
      Log(env, w, fs, i, routes)
      + if !Eligible(f) then []
        else (if Needed(fs, i, CarriesSecret(f)) then [] else [Decided(CarriesSecret(f))])
             + CallsOf(env, w, i, f, routes[CarriesSecret(f)])
  }

  /** Prefix functions do not depend on routes added later. */
  lemma {:induction false} MoreRoutes(env: Env, w: World, fs: seq<Finding>, n: nat, routes: Routes, more: Routes)
    requires n <= |fs| && Covers(fs, n, routes)
    requires forall s :: s in routes ==> s in more && more[s] == routes[s]
    ensures Covers(fs, n, more) && Processed(fs, n, more) == Processed(fs, n, routes)
    ensures FirstPolicyFailure(env, w, fs, n, more) == FirstPolicyFailure(env, w, fs, n, routes)
    ensures Log(env, w, fs, n, more) == Log(env, w, fs, n, routes)
  {
    hide Eligible, CarriesSecret, FailureOf, PolicyFailure, CallsOf, Needed;
    if n > 0 { MoreRoutes(env, w, fs, n - 1, routes, more); }
  }

  // ---- the run ----

  /** One finding's turn with its provider. */
  method TriageOne(env: Env, w: World, i: nat, a: array<Finding>, route: Route)
    returns (failure: Option<Failure>, ghost log: seq<Event>)
    requires i < a.Length
    modifies a
    ensures failure == Failed(env, w, i, old(a[i]), route)
    ensures failure.None? ==> a[i] == Consulted(env, w, i, old(a[i]), route)
    ensures failure.Some? ==> a[i] == old(a[i])
    ensures forall k :: 0 <= k < a.Length && k != i ==> a[k] == old(a[k])
    ensures log == CallsOf(env, w, i, old(a[i]), Ok(route))
  {
    var f := a[i];
    var prompt := w.prompt(f, route);
    if prompt.None? { return Some(NoPrompt), []; }
    var cached := w.cached(i, route, prompt.value);
    if cached.Some? {
      ApplyResponse(env, w, a, i, route, cached.value, 0);
      return None, [];
    }
    var final, events := Retry.RunWithRetry(env.retry, w.calls(i));
    log := Repeat(Asked(i, route.provider), Retry.Calls(events));
    assert events == Retry.WithRetry(env.retry, w.calls(i)).events &&
           final == Retry.WithRetry(env.retry, w.calls(i)).final;
    if !final.Succeeded? { return Some(NoAnswer(final)), log; }
    ApplyResponse(env, w, a, i, route, w.reply(i).0, w.reply(i).1);
    failure := None;
  }

  method ApplyResponse(env: Env, w: World, a: array<Finding>, i: nat, route: Route, raw: string, usage: Usage)
    requires i < a.Length
    modifies a
    ensures a[i] == Applied(env, w, old(a[i]), route, raw, usage)
    ensures forall k :: 0 <= k < a.Length && k != i ==> a[k] == old(a[k])
  {
    var f := a[i];
    match w.parse(raw) {
      case None =>
        a[i] := f.(rawResponse := w.redact(raw),
                   llm := f.llm.(verdict := "inconclusive", explanation := "failed to parse LLM response",
                                 provider := env.displayName(route.provider), modelName := route.modelName));
      case Some(r) =>
        f := f.(rawResponse := w.redact(raw),
                llm := f.llm.(provider := env.displayName(route.provider), modelName := route.modelName));
        if r.verdict == "confirmed" {
          f := f.(llm := f.llm.(verdict := "confirmed"));
        } else if r.verdict == "likely_fp" {
          f := f.(llm := f.llm.(verdict := "likely_fp"));
        } else {
          f := f.(llm := f.llm.(verdict := "inconclusive"));
        }
        a[i] := f.(cost := w.price(route.modelName, usage),
                   llm := f.llm.(confidence := r.confidence, explanation := r.explanation,
                       remediation := r.remediation));
    }
  }

  /** Where a run stops: at the first eligible finding met after cancellation, or at the end. */
  predicate StopsAt(w: World, fs: seq<Finding>, stop: nat) {
    && stop <= |fs|
    && (forall k :: 0 <= k < stop && Eligible(fs[k]) ==> !w.cancelled(k))
    && (stop < |fs| ==> Eligible(fs[stop]) && w.cancelled(stop))
  }

  /** The batch after its first n findings had their turn. */
  predicate TurnsTaken(env: Env, w: World, before: seq<Finding>, now: seq<Finding>, n: nat, routes: Routes) {
    && |now| == |before| && n <= |before| && Covers(before, n, routes)
    && (forall k :: 0 <= k < n ==>
        now[k] == if Eligible(before[k]) then Judged(env, w, k, before[k], routes[CarriesSecret(before[k])])
                  else before[k])
    && (forall k :: n <= k < |before| ==> now[k] == before[k])
  }

  lemma TurnTaken(env: Env, w: World, before: seq<Finding>, prior: seq<Finding>, now: seq<Finding>, n: nat,
      known: Routes, routes: Routes)
    requires TurnsTaken(env, w, before, prior, n, known) && n < |before| && Eligible(before[n]) && |now| == |prior|
    requires forall s :: s in known ==> s in routes && routes[s] == known[s]
    requires CarriesSecret(before[n]) in routes &&
             now[n] == Judged(env, w, n, before[n], routes[CarriesSecret(before[n])])
    requires forall k :: 0 <= k < |now| && k != n ==> now[k] == prior[k]
    ensures TurnsTaken(env, w, before, now, n + 1, routes)
  {
    hide Eligible, CarriesSecret, Judged;
  }

  lemma TurnCounted(env: Env, w: World, fs: seq<Finding>, n: nat, routes: Routes)
    requires n < |fs| && Eligible(fs[n]) && Covers(fs, n + 1, routes)
    ensures var routed := routes[CarriesSecret(fs[n])];
            var e, earlier := FailureOf(env, w, n, fs[n], routed), FirstPolicyFailure(env, w, fs, n, routes);
            && Processed(fs, n + 1, routes) == Processed(fs, n, routes) + (if routed.Ok? then 1 else 0)
            && FirstPolicyFailure(env, w, fs, n + 1, routes) ==
                (if earlier.None? && e.Some? && PolicyFailure(e.value) then e else earlier)
            && Log(env, w, fs, n + 1, routes) == Log(env, w, fs, n, routes)
               + ((if Needed(fs, n, CarriesSecret(fs[n])) then [] else [Decided(CarriesSecret(fs[n]))]) +
                   CallsOf(env, w, n, fs[n], routed))
  {
    hide Eligible, CarriesSecret, FailureOf, PolicyFailure, CallsOf, Needed;
  }

  lemma TurnSkipped(env: Env, w: World, before: seq<Finding>, now: seq<Finding>, n: nat, routes: Routes)
    requires TurnsTaken(env, w, before, now, n, routes) && n < |before| && !Eligible(before[n])
    ensures TurnsTaken(env, w, before, now, n + 1, routes)
    ensures Processed(before, n + 1, routes) == Processed(before, n, routes)
    ensures FirstPolicyFailure(env, w, before, n + 1, routes) == FirstPolicyFailure(env, w, before, n, routes)
    ensures Log(env, w, before, n + 1, routes) == Log(env, w, before, n, routes)
  {
    hide Eligible, CarriesSecret, FailureOf, PolicyFailure, CallsOf, Needed, Judged;
  }

  method RunTriage(env: Env, w: World, a: array<Finding>)
    returns (processed: nat, policyErr: Option<Failure>, cancelled: bool, ghost stop: nat, ghost routes: Routes,
        ghost log: seq<Event>)
    modifies a
    ensures StopsAt(w, old(a[..]), stop) && RoutesFit(env, w, old(a[..]), stop, routes)
    ensures TurnsTaken(env, w, old(a[..]), a[..], stop, routes)
    ensures processed == Processed(old(a[..]), stop, routes)
    ensures cancelled == (stop < a.Length)
    ensures policyErr == if cancelled then None else FirstPolicyFailure(env, w, old(a[..]), stop, routes)
    ensures log == Log(env, w, old(a[..]), stop, routes)
  {
    hide Eligible, CarriesSecret, FailureOf, PolicyFailure, CallsOf, Judged, Needed, RoutesFit, TurnsTaken, Processed,
         FirstPolicyFailure, Log;
    ghost var before := a[..];
    var decided: Routes := map[];
    processed, policyErr, cancelled, stop, routes, log := 0, None, false, 0, map[], [];
    NoRoutesYet(env, w, before);
    for i := 0 to a.Length
      invariant stop == i && routes == decided
      invariant forall k :: 0 <= k < i && Eligible(before[k]) ==> !w.cancelled(k)
      invariant RoutesFit(env, w, before, i, routes) && TurnsTaken(env, w, before, a[..], i, routes)
      invariant Covers(before, i, routes) && forall k :: i <= k < a.Length ==> a[k] == before[k]
      invariant processed == Processed(before, i, routes)
      invariant policyErr == FirstPolicyFailure(env, w, before, i, routes)
      invariant log == Log(env, w, before, i, routes)
    {
      if !Eligible(a[i]) {
        TurnSkipped(env, w, before, a[..], i, routes);
        NotNeeded(env, w, before, i, routes);
      } else {
        if w.cancelled(i) {
          cancelled, policyErr := true, None;
          return;
        }
        var secret := CarriesSecret(a[i]);
        ghost var prior := a[..];
        ghost var deciding;
        decided, deciding := Decide(env, w, decided, secret);
        log := log + deciding;
        RoutesGrow(env, w, before, i, routes, decided);
        MoreRoutes(env, w, before, i, routes, decided);
        ghost var events;
        policyErr, processed, events := TakeTurn(env, w, a, i, decided[secret], policyErr, processed);
        TurnTaken(env, w, before, prior, a[..], i, routes, decided);
        TurnCounted(env, w, before, i, decided);
        log := log + events;
        routes := decided;
      }
      stop := i + 1;
    }
  }

  /** The route of a kind of findings is asked for when the first of them comes up. */
  method Decide(env: Env, w: World, decided: Routes, secret: bool) returns (more: Routes, ghost log: seq<Event>)
    ensures if secret in decided then more == decided && log == []
            else && log == [Decided(secret)]
                 && exists r ::
                      && more == decided[secret := r]
                      && Router.IsRouted(env.cfg, env.providers, w.health(secret), "triage", secret, r)
  {
    if secret in decided { return decided, []; }
    var r := Router.RouteTask(env.cfg, env.providers, w.health(secret), "triage", secret);
    more, log := decided[secret := r], [Decided(secret)];
  }

  /** The turn of one eligible finding. */
  method TakeTurn(env: Env, w: World, a: array<Finding>, i: nat, routed: Routed, policyErr: Option<Failure>,
      processed: nat)
    returns (policyErr': Option<Failure>, processed': nat, ghost log: seq<Event>)
    requires i < a.Length
    modifies a
    ensures a[i] == Judged(env, w, i, old(a[i]), routed)
    ensures forall k :: 0 <= k < a.Length && k != i ==> a[k] == old(a[k])
    ensures processed' == processed + if routed.Ok? then 1 else 0
    ensures var e := FailureOf(env, w, i, old(a[i]), routed);
            policyErr' == if policyErr.None? && e.Some? && PolicyFailure(e.value) then e else policyErr
    ensures log == CallsOf(env, w, i, old(a[i]), routed)
  {
    hide PolicyFailure, Failed;
    policyErr', processed', log := policyErr, processed, [];
    var f := a[i];
    match routed {
      case Err(reason) =>
        if PolicyFailure(NoRoute(reason)) && policyErr.None? { policyErr' := Some(NoRoute(reason)); }
        var explanation := "routing failed: " + w.describe(NoRoute(reason));
        a[i] := f.(llm := f.llm.(verdict := "inconclusive", explanation := explanation));
      case Ok(route) =>
        var failure;
        failure, log := TriageOne(env, w, i, a, route);
        if failure.Some? {
          if PolicyFailure(failure.value) && policyErr.None? { policyErr' := failure; }
          var explanation := "triage error: " + w.describe(failure.value);
          a[i] := f.(llm := f.llm.(verdict := "inconclusive", explanation := explanation));
        }
        processed' := processed + 1;
    }
  }

  lemma NoRoutesYet(env: Env, w: World, fs: seq<Finding>)
    ensures RoutesFit(env, w, fs, 0, map[]) && TurnsTaken(env, w, fs, fs, 0, map[])
    ensures Processed(fs, 0, map[]) == 0 && FirstPolicyFailure(env, w, fs, 0, map[]) == None &&
            Log(env, w, fs, 0, map[]) == []
  {
  }

  lemma NotNeeded(env: Env, w: World, fs: seq<Finding>, n: nat, routes: Routes)
    requires n < |fs| && !Eligible(fs[n]) && RoutesFit(env, w, fs, n, routes)
    ensures RoutesFit(env, w, fs, n + 1, routes)
  {
    hide Eligible, CarriesSecret;
    assert forall s :: Needed(fs, n + 1, s) <==> Needed(fs, n, s);
  }

  lemma RoutesGrow(env: Env, w: World, fs: seq<Finding>, n: nat, routes: Routes, more: Routes)
    requires n < |fs| && Eligible(fs[n]) && RoutesFit(env, w, fs, n, routes)
    requires var s := CarriesSecret(fs[n]);
             if s in routes then more == routes
             else
               exists r ::
                 more == routes[s := r] && Router.IsRouted(env.cfg, env.providers, w.health(s), "triage", s, r)
    ensures RoutesFit(env, w, fs, n + 1, more)
    ensures CarriesSecret(fs[n]) in routes <==> Needed(fs, n, CarriesSecret(fs[n]))
    ensures forall s :: s in routes ==> s in more && more[s] == routes[s]
  {
    hide Eligible, CarriesSecret;
    forall s ensures Needed(fs, n + 1, s) <==> Needed(fs, n, s) || s == CarriesSecret(fs[n]) {
      if Needed(fs, n, s) {
        var k :| 0 <= k < n && Eligible(fs[k]) && CarriesSecret(fs[k]) == s;
        assert k < n + 1;
      }
    }
  }

  // ---- what a run guarantees ----

  /** Every call goes to a configured provider that the policy permits for that very finding: a cloud provider
      needs the cloud permission, and for a finding that carries a secret the second permission too. */
  lemma {:induction false} CallsArePermitted(env: Env, w: World, fs: seq<Finding>, n: nat, m: nat, routes: Routes)
    requires n <= m <= |fs| && RoutesFit(env, w, fs, m, routes) && Covers(fs, n, routes)
    ensures forall k :: 0 <= k < |Log(env, w, fs, n, routes)| ==> Lawful(env, fs, n, Log(env, w, fs, n, routes)[k])
  {
    hide Eligible, CarriesSecret, RoutesFit, CallsOf;
    if n > 0 {
      CallsArePermitted(env, w, fs, n - 1, m, routes);
      if Eligible(fs[n - 1]) {
        TurnCounted(env, w, fs, n - 1, routes);
        TurnIsPermitted(env, w, fs, n - 1, m, routes);
      }
    }
  }

  predicate Lawful(env: Env, fs: seq<Finding>, n: nat, e: Event)
    requires n <= |fs|
  {
    e.Asked? ==>
      && e.number < n && Eligible(fs[e.number]) && e.provider in env.providers
      && Router.Permitted(env.cfg, env.providers[e.provider], CarriesSecret(fs[e.number]))
  }

  lemma TurnIsPermitted(env: Env, w: World, fs: seq<Finding>, i: nat, m: nat, routes: Routes)
    requires i < m <= |fs| && RoutesFit(env, w, fs, m, routes) && Eligible(fs[i]) && CarriesSecret(fs[i]) in routes
    ensures var calls := CallsOf(env, w, i, fs[i], routes[CarriesSecret(fs[i])]);
            forall k :: 0 <= k < |calls| ==> Lawful(env, fs, i + 1, calls[k])
  {
    hide Eligible, CarriesSecret, Sends, Needed;
    var secret := CarriesSecret(fs[i]);
    if routes[secret].Ok? {
      Router.RouteIsPermitted(env.cfg, env.providers, w.health(secret), "triage", secret, routes[secret].value);
    }
  }

  /** How often a kind is decided in a log. */
  function Decisions(log: seq<Event>, secret: bool): nat {
    if log == [] then 0 else Decisions(log[..|log| - 1], secret) + if log[|log| - 1] == Decided(secret) then 1 else 0
  }

  function Asks(log: seq<Event>): nat {
    if log == [] then 0 else Asks(log[..|log| - 1]) + if log[|log| - 1].Asked? then 1 else 0
  }

  lemma {:induction false} CountsAdd(a: seq<Event>, b: seq<Event>, secret: bool)
    ensures Decisions(a + b, secret) == Decisions(a, secret) + Decisions(b, secret)
    ensures Asks(a + b) == Asks(a) + Asks(b)
  {
    if b == [] {
      assert a + b == a;
    } else {
      assert (a + b)[..|a + b| - 1] == a + b[..|b| - 1];
      CountsAdd(a, b[..|b| - 1], secret);
    }
  }

  lemma {:induction false} CountsOfCalls(calls: seq<Event>, secret: bool)
    requires forall k :: 0 <= k < |calls| ==> calls[k].Asked?
    ensures Decisions(calls, secret) == 0 && Asks(calls) == |calls|
  {
    if calls != [] { CountsOfCalls(calls[..|calls| - 1], secret); }
  }

  /** What one eligible finding adds to the log, counted. */
  lemma TurnAdds(env: Env, w: World, fs: seq<Finding>, i: nat, routes: Routes, secret: bool)
    requires i < |fs| && Eligible(fs[i]) && Covers(fs, i + 1, routes)
    ensures var kind, routed := CarriesSecret(fs[i]), routes[CarriesSecret(fs[i])];
            && Decisions(Log(env, w, fs, i + 1, routes), secret)
               == Decisions(Log(env, w, fs, i, routes), secret) +
                   (if kind == secret && !Needed(fs, i, kind) then 1 else 0)
            && Asks(Log(env, w, fs, i + 1, routes)) ==
                Asks(Log(env, w, fs, i, routes)) + |CallsOf(env, w, i, fs[i], routed)|
  {
    hide Eligible, CarriesSecret, Sends, Log, Decisions, Asks;
    TurnCounted(env, w, fs, i, routes);
    var calls := CallsOf(env, w, i, fs[i], routes[CarriesSecret(fs[i])]);
    var first := if Needed(fs, i, CarriesSecret(fs[i])) then [] else [Decided(CarriesSecret(fs[i]))];
    CountsOfCalls(calls, secret);
    CountsAdd(first, calls, secret);
    CountsAdd(Log(env, w, fs, i, routes), first + calls, secret);
    DecisionsOfOne(first, secret);
  }

  /** A kind is routed once if some eligible finding of it is met, and never otherwise: at most two decisions. */
  lemma {:induction false} RoutedOncePerKind(env: Env, w: World, fs: seq<Finding>, n: nat, routes: Routes, secret: bool)
    requires n <= |fs| && Covers(fs, n, routes)
    ensures Decisions(Log(env, w, fs, n, routes), secret) == if Needed(fs, n, secret) then 1 else 0
  {
    hide Eligible, CarriesSecret, CallsOf, Needed;
    if n == 0 {
      NobodyNeeds(fs, secret);
    } else {
      RoutedOncePerKind(env, w, fs, n - 1, routes, secret);
      NeededStep(fs, n - 1, secret);
      if Eligible(fs[n - 1]) {
        TurnAdds(env, w, fs, n - 1, routes, secret);
      } else {
        assert Log(env, w, fs, n - 1, routes) + [] == Log(env, w, fs, n - 1, routes);
      }
    }
  }

  lemma NobodyNeeds(fs: seq<Finding>, secret: bool)
    ensures !Needed(fs, 0, secret)
  {
  }

  lemma DecisionsOfOne(first: seq<Event>, secret: bool)
    requires |first| <= 1
    ensures Decisions(first, secret) == (if |first| == 1 && first[0] == Decided(secret) then 1 else 0)
    ensures Asks(first) == (if |first| == 1 && first[0].Asked? then 1 else 0)
  {
  }

  lemma NeededStep(fs: seq<Finding>, i: nat, secret: bool)
    requires i < |fs|
    ensures Needed(fs, i + 1, secret) <==> Needed(fs, i, secret) || (Eligible(fs[i]) && CarriesSecret(fs[i]) == secret)
  {
    hide Eligible, CarriesSecret;
    if Needed(fs, i, secret) {
      var k :| 0 <= k < i && Eligible(fs[k]) && CarriesSecret(fs[k]) == secret;
      assert k < i + 1;
    }
  }

  /** The most calls one finding can cost. */
  function PerFinding(retry: Retry.Config): nat { (if retry.maxRetries > 0 then retry.maxRetries else 0) + 1 }

  lemma CallsOfOne(env: Env, w: World, i: nat, f: Finding, routed: Routed)
    ensures |CallsOf(env, w, i, f, routed)| <= if routed.Ok? then PerFinding(env.retry) else 0
  {
    hide Sends;
    if env.retry.maxRetries >= 0 {
      Retry.RetryIsBounded(env.retry, w.calls(i));
    } else {
      assert Retry.Calls([Retry.Called(0)][1..]) == 0;
    }
  }

  /** A batch makes at most one retry sequence per processed finding. */
  lemma {:induction false} CallsAreBounded(env: Env, w: World, fs: seq<Finding>, n: nat, routes: Routes)
    requires n <= |fs| && Covers(fs, n, routes)
    ensures Asks(Log(env, w, fs, n, routes)) <= Processed(fs, n, routes) * PerFinding(env.retry)
  {
    hide Eligible, CarriesSecret, Needed, PerFinding, CallsOf;
    if n > 0 {
      var i := n - 1;
      CallsAreBounded(env, w, fs, i, routes);
      if Eligible(fs[i]) {
        TurnAdds(env, w, fs, i, routes, false);
        CallsOfOne(env, w, i, fs[i], routes[CarriesSecret(fs[i])]);
        Retry.OneStep(Processed(fs, i, routes), PerFinding(env.retry));
      } else {
        assert Log(env, w, fs, i, routes) + [] == Log(env, w, fs, i, routes);
      }
    }
  }

  predicate HasVerdict(f: Finding) { f.llm.verdict in {"confirmed", "likely_fp", "inconclusive"} }

  /** The model's own fields may differ, and nothing else. */
  predicate ModelFieldsOnly(f: Finding, g: Finding) {
    g == f.(llm := g.llm, rawResponse := g.rawResponse, cost := g.cost)
  }

  lemma AnswerGivesVerdict(env: Env, w: World, f: Finding, route: Route, raw: string, usage: Usage)
    ensures var g := Applied(env, w, f, route, raw, usage); HasVerdict(g) && ModelFieldsOnly(f, g)
  {
  }

  /** Whatever the world answers, a turn ends with a verdict and touches only the model's own fields. */
  lemma TurnGivesVerdict(env: Env, w: World, i: nat, f: Finding, routed: Routed)
    ensures HasVerdict(Judged(env, w, i, f, routed)) && ModelFieldsOnly(f, Judged(env, w, i, f, routed))
  {
    hide Applied, Failed, HasVerdict, ModelFieldsOnly;
    if routed.Err? {
      FailureGivesVerdict(f, "routing failed: " + w.describe(NoRoute(routed.error)));
    } else {
      var route := routed.value;
      var e := Failed(env, w, i, f, route);
      if e.Some? {
        FailureGivesVerdict(f, "triage error: " + w.describe(e.value));
      } else if Sends(w, i, f, route) {
        AnswerGivesVerdict(env, w, f, route, w.reply(i).0, w.reply(i).1);
      } else {
        NotSentIsCached(env, w, i, f, route);
        AnswerGivesVerdict(env, w, f, route, w.cached(i, route, w.prompt(f, route).value).value, 0);
      }
    }
  }

  lemma FailureGivesVerdict(f: Finding, why: string)
    ensures HasVerdict(Inconclusive(f, why)) && ModelFieldsOnly(f, Inconclusive(f, why))
  {
  }

  lemma NotSentIsCached(env: Env, w: World, i: nat, f: Finding, route: Route)
    requires Failed(env, w, i, f, route).None? && !Sends(w, i, f, route)
    ensures w.prompt(f, route).Some? && w.cached(i, route, w.prompt(f, route).value).Some?
  {
  }

  /** A finding is confirmed exactly when it got an answer that parses to a confirmation. */
  lemma ConfirmedExactly(env: Env, w: World, i: nat, f: Finding, routed: Routed)
    ensures Judged(env, w, i, f, routed).llm.verdict == "confirmed" <==>
              && routed.Ok? && Failed(env, w, i, f, routed.value).None?
              && var raw := if Sends(w, i, f, routed.value) then w.reply(i).0
                            else w.cached(i, routed.value, w.prompt(f, routed.value).value).value;
                 w.parse(raw).Some? && w.parse(raw).value.verdict == "confirmed"
  {
  }

  /** After an uncancelled run every eligible finding has a verdict, and every other finding is untouched. */
  lemma EveryEligibleFindingIsJudged(env: Env, w: World, before: seq<Finding>, after: seq<Finding>, routes: Routes)
    requires TurnsTaken(env, w, before, after, |before|, routes)
    ensures forall k :: 0 <= k < |after| ==> if Eligible(before[k]) then HasVerdict(after[k]) else after[k] == before[k]
  {
    hide Judged, HasVerdict;
    forall k | 0 <= k < |after| && Eligible(before[k]) ensures HasVerdict(after[k]) {
      TurnGivesVerdict(env, w, k, before[k], routes[CarriesSecret(before[k])]);
    }
  }

  /** Run after clustering, where a finding needs triage exactly if it represents its cluster, triage touches
      representatives only, and nothing but their model fields: what spreading verdicts relies on. */
  lemma TriageTouchesRepresentatives(env: Env, w: World, before: seq<Finding>, after: seq<Finding>, n: nat,
      routes: Routes)
    requires TurnsTaken(env, w, before, after, n, routes)
    requires forall k :: 0 <= k < |before| ==> before[k].needsTriage == before[k].representative
    ensures forall k :: 0 <= k < |after| ==> Cluster.TriagedFrom(before[k], after[k])
  {
    hide Judged, HasVerdict;
    forall k | 0 <= k < |after| ensures Cluster.TriagedFrom(before[k], after[k]) {
      if k < n && Eligible(before[k]) {
        TurnGivesVerdict(env, w, k, before[k], routes[CarriesSecret(before[k])]);
      }
    }
  }

  /** From clustering over sorting and an uncancelled triage run to spreading: every finding of a class ends with
      the assessment of its representative, and that has a verdict unless the representative is informational. */
  lemma EveryClassEndsWithOneVerdict(
    keys: Cluster.Keys, sigs: seq<string>, before: seq<Finding>, clustered: seq<Finding>, order: seq<nat>,
    env: Env, w: World, sorted: seq<Finding>, triaged: seq<Finding>, routes: Routes, i: nat)
    returns (rep: nat)
    requires Cluster.Clustered(keys, sigs, before, clustered) && Cluster.TellsApart(keys, sigs)
    requires Cluster.Permutation(order, |clustered|) && |sorted| == |clustered| && i < |sorted|
    requires forall k :: 0 <= k < |sorted| ==> sorted[k] == clustered[order[k]]
    requires TurnsTaken(env, w, sorted, triaged, |sorted|, routes)
    ensures rep < |triaged| && sigs[order[rep]] == sigs[order[i]] && sorted[rep].representative
    ensures sorted[rep].severity != "info" ==>
            var f := Cluster.Spread(triaged, i); HasVerdict(f) && f.llm == triaged[rep].llm
  {
    hide Judged, HasVerdict, Cluster.Spread, Cluster.TellsApart, Cluster.Least, Cluster.Represented;
    forall k | 0 <= k < |sorted| ensures sorted[k].needsTriage == sorted[k].representative {
      assert Cluster.Marked(keys.clusterID(sigs[order[k]]), before[order[k]], clustered[order[k]]);
    }
    TriageTouchesRepresentatives(env, w, sorted, triaged, |sorted|, routes);
    rep := Cluster.VerdictsAgree(keys, sigs, before, clustered, order, triaged, i);
    EveryEligibleFindingIsJudged(env, w, sorted, triaged, routes);
    assert Cluster.TriagedFrom(sorted[rep], triaged[rep]);
    if sorted[rep].severity != "info" { SharedVerdict(triaged[rep], triaged[i], Cluster.Spread(triaged, i)); }
  }

  lemma SharedVerdict(rep: Finding, member: Finding, f: Finding)
    requires HasVerdict(rep) && f == if rep.llm.verdict == "" then member else member.(llm := rep.llm)
    ensures HasVerdict(f) && f.llm == rep.llm
  {
  }

  /** The error reported is the first policy failure of the batch, and there is none exactly when no finding had one. */
  lemma {:induction false} FirstFailureIsFirst(env: Env, w: World, fs: seq<Finding>, n: nat, routes: Routes)
    requires n <= |fs| && Covers(fs, n, routes)
    ensures var r := FirstPolicyFailure(env, w, fs, n, routes);
            if r.None? then forall k :: 0 <= k < n ==> !FailsPolicy(env, w, fs, k, routes)
            else exists k :: 0 <= k < n && FailsPolicy(env, w, fs, k, routes)
                             && r == FailureOf(env, w, k, fs[k], routes[CarriesSecret(fs[k])])
                             && forall j :: 0 <= j < k ==> !FailsPolicy(env, w, fs, j, routes)
  {
    hide Eligible, CarriesSecret, FailureOf, PolicyFailure;
    if n > 0 { FirstFailureIsFirst(env, w, fs, n - 1, routes); }
  }

  predicate FailsPolicy(env: Env, w: World, fs: seq<Finding>, k: nat, routes: Routes)
    requires k < |fs|
  {
    Eligible(fs[k]) && CarriesSecret(fs[k]) in routes
    && var e := FailureOf(env, w, k, fs[k], routes[CarriesSecret(fs[k])]);
       e.Some? && PolicyFailure(e.value)
  }
}
