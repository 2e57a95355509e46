/** Choosing a provider and model for a task, under the privacy policy.

    A provider is its name and kind; whether it is available is asked at run time, and the answers
    are an oracle that may differ from one step of routing to the next.
 */
module Router {
  import opened Bytes
  import opened Order

  datatype Kind = Local | Cloud

  /** A configured task; an empty model means a default has to be found for the provider. */
  datatype Task = Task(provider: string, modelName: string)

  datatype Config = Config(
    tasks: map<string, Task>, defaultProvider: string, allowCloud: bool, allowCloudSecrets: bool)

  type Providers = map<string, Kind>

  datatype Route = Route(provider: string, modelName: string)

  datatype RouteError = CloudNotAllowed | ProviderUnavailable | NotConfigured

  /** The steps of routing at which a provider is asked whether it is available. */
  datatype Stage = ByTask | ByDefault | AutoLocal | AutoCloud
  type Health = (Stage, string) -> bool

  /** The privacy policy: cloud providers need permission, and a second one for secrets. */
  predicate Permitted(cfg: Config, kind: Kind, secret: bool) {
    kind == Local || (cfg.allowCloud && (secret ==> cfg.allowCloudSecrets))
  }

  // ---- models ----

  function ProviderDefaultModel(name: string): string {
    if name == "ollama" then "qwen2.5-coder:7b"
    else if name == "openai" then "gpt-4o-mini"
    else if name == "anthropic" then "claude-sonnet-4-20250514"
    else if name == "gemini" then "gemini-2.0-flash"
    else ""
  }

  /** A configured task with a model to lend, bound to this very provider. */
  predicate Lends(cfg: Config, task: string, provider: string) {
    task in cfg.tasks && cfg.tasks[task].provider == provider && cfg.tasks[task].modelName != ""
  }

  /** The model of the triage task, else of the first task in name order, else the built-in one. */
  ghost predicate IsDefaultModel(cfg: Config, provider: string, m: string) {
    if Lends(cfg, "triage", provider) then m == cfg.tasks["triage"].modelName
    else if exists t :: Lends(cfg, t, provider) then
      exists t :: Lends(cfg, t, provider) && m == cfg.tasks[t].modelName && forall u :: Lends(cfg, u, provider) ==>
          !StringLess(u, t)
    else m == ProviderDefaultModel(provider)
  }

  lemma DefaultModelIsUnique(cfg: Config, provider: string, m: string, n: string)
    requires IsDefaultModel(cfg, provider, m) && IsDefaultModel(cfg, provider, n)
    ensures m == n
    ensures m == ProviderDefaultModel(provider) || exists t :: Lends(cfg, t, provider) && cfg.tasks[t].modelName == m
  {
    if !Lends(cfg, "triage", provider) && (exists t :: Lends(cfg, t, provider)) {
      var t :| Lends(cfg, t, provider) && m == cfg.tasks[t].modelName && forall u :: Lends(cfg, u, provider) ==>
          !StringLess(u, t);
      var u :| Lends(cfg, u, provider) && n == cfg.tasks[u].modelName && forall v :: Lends(cfg, v, provider) ==>
          !StringLess(v, u);
      StringTotal(t, u);
    }
  }

  method DefaultModel(cfg: Config, provider: string) returns (m: string)
    ensures IsDefaultModel(cfg, provider, m)
  {
    hide StringLess;
    if "triage" in cfg.tasks && cfg.tasks["triage"].provider == provider && cfg.tasks["triage"].modelName != "" {
      return cfg.tasks["triage"].modelName;
    }
    var names := SortedNames(cfg.tasks.Keys);
    for k := 0 to |names|
      invariant forall j :: 0 <= j < k ==> !Lends(cfg, names[j], provider)
    {
      assert names[k] in names;
      if cfg.tasks[names[k]].provider == provider && cfg.tasks[names[k]].modelName != "" {
        LeastLender(cfg, provider, names, k);
        return cfg.tasks[names[k]].modelName;
      }
    }
    forall t | t in cfg.tasks ensures !Lends(cfg, t, provider) {
      assert t in names;
    }
    m := ProviderDefaultModel(provider);
  }

  lemma LeastLender(cfg: Config, provider: string, names: seq<string>, k: nat)
    requires Ascending(names) && Lists(names, cfg.tasks.Keys) && k < |names| && Lends(cfg, names[k], provider)
    requires forall j :: 0 <= j < k ==> !Lends(cfg, names[j], provider)
    ensures forall u :: Lends(cfg, u, provider) ==> !StringLess(u, names[k])
  {
    hide StringLess;
    forall u | Lends(cfg, u, provider) ensures !StringLess(u, names[k]) {
      assert u in names;
      var i :| 0 <= i < |names| && names[i] == u;
      StringTotal(names[i], names[k]);
    }
  }

  // ---- routing ----

  /** Trying one provider: it must be configured, permitted, and available. */
  function TryProvider(cfg: Config, providers: Providers, name: string, secret: bool,
      available: bool): (r: Option<RouteError>)
    ensures r.None? <==> name in providers && Permitted(cfg, providers[name], secret) && available
    ensures r == Some(CloudNotAllowed) <==> name in providers && !Permitted(cfg, providers[name], secret)
  {
    if name !in providers then Some(NotConfigured)
    else if providers[name] == Cloud && !cfg.allowCloud then Some(CloudNotAllowed)
    else if providers[name] == Cloud && secret && !cfg.allowCloudSecrets then Some(CloudNotAllowed)
    else if !available then Some(ProviderUnavailable)
    else None
  }

  /** A provider of this kind answers at this stage of the search. */
  predicate Answers(providers: Providers, health: Health, kind: Kind, name: string) {
    name in providers && providers[name] == kind && health(if kind == Local then AutoLocal else AutoCloud, name)
  }

  ghost predicate Somebody(providers: Providers, health: Health, kind: Kind) {
    exists name :: Answers(providers, health, kind, name)
  }

  /** The first provider in name order that answers. */
  ghost predicate FirstAnswer(providers: Providers, health: Health, kind: Kind, name: string) {
    && Answers(providers, health, kind, name)
    && forall other :: Answers(providers, health, kind, other) ==> !StringLess(other, name)
  }

  method FindFirst(providers: Providers, health: Health, kind: Kind) returns (found: Option<string>)
    ensures if Somebody(providers, health, kind) then found.Some? && FirstAnswer(providers, health, kind, found.value)
            else found.None?
  {
    hide StringLess;
    var names := SortedNames(providers.Keys);
    for k := 0 to |names|
      invariant forall j :: 0 <= j < k ==> !Answers(providers, health, kind, names[j])
    {
      assert names[k] in names;
      if providers[names[k]] == kind && health(if kind == Local then AutoLocal else AutoCloud, names[k]) {
        forall other | Answers(providers, health, kind, other) ensures !StringLess(other, names[k]) {
          assert other in names;
          var i :| 0 <= i < |names| && names[i] == other;
          StringTotal(names[i], names[k]);
        }
        assert Answers(providers, health, kind, names[k]);
        return Some(names[k]);
      }
    }
    forall other ensures !Answers(providers, health, kind, other) {
      if other in providers {
        assert other in names;
        var i :| 0 <= i < |names| && names[i] == other;
      }
    }
    assert !Somebody(providers, health, kind);
    found := None;
  }

  /** Local providers are searched first, and cloud ones only under the policy. */
  ghost predicate AutoDetected(cfg: Config, providers: Providers, health: Health, secret: bool, r: Option<Route>) {
    if Somebody(providers, health, Local) then
      r.Some? && FirstAnswer(providers, health, Local, r.value.provider) &&
          IsDefaultModel(cfg, r.value.provider, r.value.modelName)
    else if Permitted(cfg, Cloud, secret) && Somebody(providers, health, Cloud) then
      r.Some? && FirstAnswer(providers, health, Cloud, r.value.provider) &&
          IsDefaultModel(cfg, r.value.provider, r.value.modelName)
    else r.None?
  }

  method AutoDetect(cfg: Config, providers: Providers, health: Health, secret: bool) returns (r: Option<Route>)
    ensures AutoDetected(cfg, providers, health, secret, r)
  {
    hide FirstAnswer, IsDefaultModel, Somebody;
    var found := FindFirst(providers, health, Local);
    if found.None? && cfg.allowCloud && (!secret || cfg.allowCloudSecrets) {
      found := FindFirst(providers, health, Cloud);
    }
    if found.None? { return None; }
    var m := DefaultModel(cfg, found.value);
    r := Some(Route(found.value, m));
  }

  /** What trying the provider of a configured task gives. */
  function TaskStep(cfg: Config, providers: Providers, health: Health, task: string, secret: bool): Option<RouteError>
    requires task in cfg.tasks
  {
    TryProvider(cfg, providers, cfg.tasks[task].provider, secret, health(ByTask, cfg.tasks[task].provider))
  }

  function DefaultStep(cfg: Config, providers: Providers, health: Health, secret: bool): Option<RouteError> {
    TryProvider(cfg, providers, cfg.defaultProvider, secret, health(ByDefault, cfg.defaultProvider))
  }

  /** Task first, then the default provider, then the search; a policy refusal met on the way is what gets reported. */
  ghost predicate IsRouted(cfg: Config, providers: Providers, health: Health, task: string, secret: bool,
      r: Result<Route, RouteError>) {
    if task in cfg.tasks && TaskStep(cfg, providers, health, task, secret).None? then
      var t := cfg.tasks[task];
      r.Ok? && r.value.provider == t.provider
      && (if t.modelName != "" then r.value.modelName == t.modelName
          else IsDefaultModel(cfg, t.provider, r.value.modelName))
    else if cfg.defaultProvider != "" && DefaultStep(cfg, providers, health, secret).None? then
      r.Ok? && r.value.provider == cfg.defaultProvider && IsDefaultModel(cfg, cfg.defaultProvider, r.value.modelName)
    else if Somebody(providers, health, Local) ||
        (Permitted(cfg, Cloud, secret) && Somebody(providers, health, Cloud)) then
      r.Ok? && AutoDetected(cfg, providers, health, secret, Some(r.value))
    else if (task in cfg.tasks && TaskStep(cfg, providers, health, task, secret) == Some(CloudNotAllowed))
         || (cfg.defaultProvider != "" && DefaultStep(cfg, providers, health, secret) == Some(CloudNotAllowed)) then
      r == Err(CloudNotAllowed)
    else r == Err(ProviderUnavailable)
  }

  method RouteTask(cfg: Config, providers: Providers, health: Health, task: string, secret: bool)
    returns (r: Result<Route, RouteError>)
    ensures IsRouted(cfg, providers, health, task, secret, r)
  {
    hide FirstAnswer, IsDefaultModel, Somebody, TryProvider;
    var cloudErr := false;
    if task in cfg.tasks {
      var t := cfg.tasks[task];
      var m := t.modelName;
      if m == "" { m := DefaultModel(cfg, t.provider); }
      var failed := TryProvider(cfg, providers, t.provider, secret, health(ByTask, t.provider));
      if failed.None? { return Ok(Route(t.provider, m)); }
      if failed == Some(CloudNotAllowed) { cloudErr := true; }
    }
    if cfg.defaultProvider != "" {
      var m := DefaultModel(cfg, cfg.defaultProvider);
      var failed := TryProvider(cfg, providers, cfg.defaultProvider, secret, health(ByDefault, cfg.defaultProvider));
      if failed.None? { return Ok(Route(cfg.defaultProvider, m)); }
      if failed == Some(CloudNotAllowed) { cloudErr := true; }
    }
    var found := AutoDetect(cfg, providers, health, secret);
    if found.Some? { return Ok(found.value); }
    r := Err(if cloudErr then CloudNotAllowed else ProviderUnavailable);
  }

  // ---- what routing guarantees ----

  /** One outcome per configuration and availability: the order in which maps are walked cannot change it. */
  lemma RoutingIsDetermined(cfg: Config, providers: Providers, health: Health, task: string, secret: bool,
                            a: Result<Route, RouteError>, b: Result<Route, RouteError>)
    requires IsRouted(cfg, providers, health, task, secret, a) && IsRouted(cfg, providers, health, task, secret, b)
    ensures a == b
  {
    hide IsDefaultModel, Somebody, TryProvider, StringLess;
    if a.Ok? && b.Ok? {
      StringTotal(a.value.provider, b.value.provider);
      assert a.value.provider == b.value.provider;
      if IsDefaultModel(cfg, a.value.provider, a.value.modelName) &&
          IsDefaultModel(cfg, b.value.provider, b.value.modelName) {
        DefaultModelIsUnique(cfg, a.value.provider, a.value.modelName, b.value.modelName);
      }
    }
  }

  /** A route always leads to a configured provider that the policy permits and that answered. */
  lemma RouteIsPermitted(cfg: Config, providers: Providers, health: Health, task: string, secret: bool, r: Route)
    requires IsRouted(cfg, providers, health, task, secret, Ok(r))
    ensures r.provider in providers && Permitted(cfg, providers[r.provider], secret)
    ensures exists stage :: health(stage, r.provider)
  {
    hide IsDefaultModel, StringLess;
  }

  /** Every provider's availability is the same at each step. */
  ghost predicate Steady(health: Health, up: string -> bool) {
    forall stage, name :: health(stage, name) == up(name)
  }

  /** With steady availability routing fails exactly when no permitted provider is up, and blames the policy
      exactly when it forbids the provider configured by task or by default. */
  lemma RouteFailsExactly(cfg: Config, providers: Providers, health: Health, up: string -> bool, task: string,
      secret: bool, r: Result<Route, RouteError>)
    requires IsRouted(cfg, providers, health, task, secret, r) && Steady(health, up)
    ensures r.Err? <==> forall name :: name in providers && Permitted(cfg, providers[name], secret) ==> !up(name)
    ensures r.Err? ==>
              (r.error == CloudNotAllowed <==>
               || (task in cfg.tasks && cfg.tasks[task].provider in providers &&
                   !Permitted(cfg, providers[cfg.tasks[task].provider], secret))
               || (cfg.defaultProvider != "" && cfg.defaultProvider in providers &&
                   !Permitted(cfg, providers[cfg.defaultProvider], secret)))
    ensures r.Err? ==> r.error != NotConfigured
  {
    hide IsDefaultModel, StringLess;
    if r.Ok? {
      RouteIsPermitted(cfg, providers, health, task, secret, r.value);
    } else {
      forall name | name in providers && Permitted(cfg, providers[name], secret) ensures !up(name) {
        assert !Answers(providers, health, providers[name], name);
      }
    }
  }

  /** Configured, permitted, and up. */
  predicate Usable(cfg: Config, providers: Providers, up: string -> bool, name: string, secret: bool) {
    name in providers && Permitted(cfg, providers[name], secret) && up(name)
  }

  /** With steady availability the task's provider is the one used if it is usable, and otherwise the default one if
      that is. */
  lemma ConfiguredComesFirst(cfg: Config, providers: Providers, health: Health, up: string -> bool, task: string,
      secret: bool, r: Result<Route, RouteError>)
    requires IsRouted(cfg, providers, health, task, secret, r) && Steady(health, up)
    ensures var byTask := task in cfg.tasks && Usable(cfg, providers, up, cfg.tasks[task].provider, secret);
            && (byTask ==> r.Ok? && r.value.provider == cfg.tasks[task].provider)
            && (!byTask && cfg.defaultProvider != "" && Usable(cfg, providers, up, cfg.defaultProvider, secret) ==>
                r.Ok? && r.value.provider == cfg.defaultProvider)
  {
    hide IsDefaultModel, StringLess, AutoDetected, Somebody;
    assert health(ByDefault, cfg.defaultProvider) == up(cfg.defaultProvider);
    if task in cfg.tasks {
      var name := cfg.tasks[task].provider;
      assert health(ByTask, name) == up(name);
    }
  }

  /** With steady availability any local provider that is up comes before every cloud provider, except for one that is
      configured for the task or as the default, permitted, and up. */
  lemma LocalComesFirst(cfg: Config, providers: Providers, health: Health, up: string -> bool, task: string,
      secret: bool, r: Route, loc: string)
    requires IsRouted(cfg, providers, health, task, secret, Ok(r)) && Steady(health, up)
    requires loc in providers && providers[loc] == Local && up(loc)
    ensures || providers[r.provider] == Local
            || (Usable(cfg, providers, up, r.provider, secret)
                && ((task in cfg.tasks && r.provider == cfg.tasks[task].provider) || r.provider == cfg.defaultProvider))
  {
    hide IsDefaultModel, StringLess;
    RouteIsPermitted(cfg, providers, health, task, secret, r);
    assert Answers(providers, health, Local, loc);
  }
}
