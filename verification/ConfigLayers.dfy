/**
  The layered CLI configuration: an auto-discovered project file is stripped
  of everything that routes data, overlaid on the user's own configuration, and
  the result is resolved per scan target.
 */
module ConfigLayers {
  import opened Basics

  datatype Webhook = Webhook(url: string, secret: string)

  /** The settings both a configuration and one of its repositories may carry;
      empty strings, zero and None mean unset. */
  datatype Shared = Shared(
    server: string, apiKey: string, apiKeyEnv: string, sendMetadata: Option<bool>, webhook: Webhook,
    mode: string, failOn: string, timeout: int, ecosystems: seq<string>, includeDev: Option<bool>)

  datatype Repo = Repo(name: string, path: string, shared: Shared)

  datatype Log = Log(level: string, format: string, file: string)

  datatype Hook = Hook(kind: string, failOn: string)

  /** Base URLs by registry, Docker mirrors, allowed Git hosts and feed URLs. */
  datatype Registries = Registries(
    urls: map<string, string>, mirrors: map<string, string>, hosts: seq<string>, feeds: seq<string>)

  const NO_REGISTRIES := Registries(map[], map[], [], [])

  datatype Config = Config(
    shared: Shared, caCert: string, insecureHttp: Option<bool>, requireRemote: Option<bool>,
    outputFormat: string, outputFile: string, log: Log, hook: Hook, dbPath: string, dbSyncSource: string,
    registries: Registries, repos: seq<Repo>)

  function Or(x: string, fallback: string): string {
    if x != "" then x else fallback
  }

  function OrElse<T>(x: Option<T>, fallback: Option<T>): Option<T> {
    if x.Some? then x else fallback
  }

  // ----- Stripping the project layer -----

  function Untrusted(s: Shared): Shared {
    s.(server := "", apiKey := "", apiKeyEnv := "", webhook := Webhook("", ""),
       sendMetadata := if s.sendMetadata == Some(true) then None else s.sendMetadata)
  }

  function UntrustedRepos(repos: seq<Repo>): seq<Repo> {
    seq(|repos|, i requires 0 <= i < |repos| => repos[i].(shared := Untrusted(repos[i].shared)))
  }

  function Strip(c: Config): Config {
    c.(shared := Untrusted(c.shared), caCert := "", insecureHttp := None, requireRemote := None,
       outputFormat := "", outputFile := "", dbPath := "", registries := NO_REGISTRIES,
       repos := UntrustedRepos(c.repos))
  }

  // ----- Overlaying it -----

  function OverlayShared(dst: Shared, src: Shared): Shared {
    Shared(
      Or(src.server, dst.server), Or(src.apiKey, dst.apiKey), Or(src.apiKeyEnv, dst.apiKeyEnv),
      OrElse(src.sendMetadata, dst.sendMetadata),
      Webhook(Or(src.webhook.url, dst.webhook.url), Or(src.webhook.secret, dst.webhook.secret)),
      Or(src.mode, dst.mode), Or(src.failOn, dst.failOn),
      if src.timeout != 0 then src.timeout else dst.timeout,
      if |src.ecosystems| > 0 then src.ecosystems else dst.ecosystems,
      OrElse(src.includeDev, dst.includeDev))
  }

  function OverlayLog(dst: Log, src: Log): Log {
    Log(Or(src.level, dst.level), Or(src.format, dst.format), Or(src.file, dst.file))
  }

  function OverlayHook(dst: Hook, src: Hook): Hook {
    Hook(Or(src.kind, dst.kind), Or(src.failOn, dst.failOn))
  }

  /** The values that are set, each at its first occurrence. */
  function Dedup(values: seq<string>): seq<string> {
    if values == [] then []
    else
      var front, last := Dedup(values[..|values| - 1]), values[|values| - 1];
      if last == "" || last in front then front else front + [last]
  }

  function OverlayRegistries(dst: Registries, src: Registries): Registries {
    Registries(
      dst.urls + src.urls, dst.mirrors + src.mirrors,
      if |src.hosts| > 0 then Dedup(dst.hosts + src.hosts) else dst.hosts,
      if |src.feeds| > 0 then src.feeds else dst.feeds)
  }

  /** Paths are compared in the canonical form the platform gives them. */
  predicate SamePlace(canon: string -> string, a: string, b: string) {
    canon(a) == canon(b)
  }

  predicate Refers(canon: string -> string, trusted: Repo, repo: Repo) {
    trusted.name == repo.name || SamePlace(canon, trusted.path, repo.path)
  }

  /** The trusted entry a project entry takes its routing from: the first of its
      name, otherwise the first at its path. */
  function Matched(canon: string -> string, base: seq<Repo>, repo: Repo): Option<Repo> {
    var named := FirstNamed(base, repo.name, 0);
    if named.Some? then named else FirstAt(canon, base, repo.path, 0)
  }

  function FirstNamed(base: seq<Repo>, name: string, i: nat): Option<Repo>
    requires i <= |base|
    decreases |base| - i
  {
    if i == |base| then None else if base[i].name == name then Some(base[i]) else FirstNamed(base, name, i + 1)
  }

  function FirstAt(canon: string -> string, base: seq<Repo>, path: string, i: nat): Option<Repo>
    requires i <= |base|
    decreases |base| - i
  {
    if i == |base| then None
    else if SamePlace(canon, base[i].path, path) then Some(base[i])
    else FirstAt(canon, base, path, i + 1)
  }

  function Routed(repo: Repo, trusted: Repo): Repo {
    var s, t := repo.shared, trusted.shared;
    OptedOut(
      repo.(shared := s.(server := Or(s.server, t.server), apiKey := Or(s.apiKey, t.apiKey),
                         apiKeyEnv := Or(s.apiKeyEnv, t.apiKeyEnv), webhook := t.webhook)),
      trusted)
  }

  function OptedOut(repo: Repo, trusted: Repo): Repo {
    if trusted.shared.sendMetadata == Some(false)
    then repo.(shared := repo.shared.(sendMetadata := Some(false)))
    else repo
  }

  /** Opt-outs of the first n trusted entries that the repository refers to. */
  function AllOptOuts(canon: string -> string, base: seq<Repo>, repo: Repo, n: nat): Repo
    requires n <= |base|
  {
    if n == 0 then repo
    else
      var before := AllOptOuts(canon, base, repo, n - 1);
      if Refers(canon, base[n - 1], repo) then OptedOut(before, base[n - 1]) else before
  }

  function Inherited(canon: string -> string, base: seq<Repo>, repo: Repo): Repo {
    var match0 := Matched(canon, base, repo);
    AllOptOuts(canon, base, if match0.Some? then Routed(repo, match0.value) else repo, |base|)
  }

  function OverlayRepos(canon: string -> string, base: seq<Repo>, repos: seq<Repo>): seq<Repo> {
    if |repos| == 0 then base
    else seq(|repos|, i requires 0 <= i < |repos| => Inherited(canon, base, repos[i]))
  }

  function Overlay(canon: string -> string, dst: Config, src: Config): Config {
    Config(
      OverlayShared(dst.shared, src.shared), Or(src.caCert, dst.caCert),
      OrElse(src.insecureHttp, dst.insecureHttp), OrElse(src.requireRemote, dst.requireRemote),
      Or(src.outputFormat, dst.outputFormat), Or(src.outputFile, dst.outputFile),
      OverlayLog(dst.log, src.log), OverlayHook(dst.hook, src.hook),
      Or(src.dbPath, dst.dbPath), Or(src.dbSyncSource, dst.dbSyncSource),
      OverlayRegistries(dst.registries, src.registries), OverlayRepos(canon, dst.repos, src.repos))
  }

  /** The configuration a scan uses. */
  function Layered(canon: string -> string, user: Config, project: Config): Config {
    Overlay(canon, user, Strip(project))
  }

  class CliConfig {
    var config: Config

    constructor (config: Config)
      ensures this.config == config
    {
      this.config := config;
    }

    method StripUntrusted()
      modifies this
      ensures config == Strip(old(config))
    {
      config := config.(shared := Untrusted(config.shared), caCert := "", insecureHttp := None, requireRemote := None,
                        outputFormat := "", outputFile := "", dbPath := "", registries := NO_REGISTRIES);
      var i := 0;
      while i < |config.repos|
        invariant i <= |config.repos| == |old(config).repos|
        invariant config.(repos := []) == Strip(old(config)).(repos := [])
        invariant forall j :: 0 <= j < i ==> config.repos[j] == UntrustedRepos(old(config).repos)[j]
        invariant forall j :: i <= j < |config.repos| ==> config.repos[j] == old(config).repos[j]
      {
        var repo := config.repos[i];
        config := config.(repos := config.repos[i := repo.(shared := Untrusted(repo.shared))]);
        i := i + 1;
      }
      assert config.repos == UntrustedRepos(old(config).repos);
    }

    method Match(canon: string -> string, repo: Repo) returns (index: int)
      ensures -1 <= index < |config.repos|
      ensures Matched(canon, config.repos, repo) == if index < 0 then None else Some(config.repos[index])
    {
      var base := config.repos;
      for i := 0 to |base|
        invariant FirstNamed(base, repo.name, 0) == FirstNamed(base, repo.name, i)
      {
        if base[i].name == repo.name {
          return i;
        }
      }
      for i := 0 to |base|
        invariant FirstAt(canon, base, repo.path, 0) == FirstAt(canon, base, repo.path, i)
      {
        if SamePlace(canon, base[i].path, repo.path) {
          return i;
        }
      }
      return -1;
    }

    method InheritOptOuts(canon: string -> string, repo: Repo) returns (merged: Repo)
      ensures merged == AllOptOuts(canon, config.repos, repo, |config.repos|)
    {
      merged := repo;
      for i := 0 to |config.repos|
        invariant merged == AllOptOuts(canon, config.repos, repo, i)
        invariant merged.name == repo.name && merged.path == repo.path
      {
        if config.repos[i].name == merged.name || SamePlace(canon, config.repos[i].path, merged.path) {
          merged := OptedOut(merged, config.repos[i]);
        }
      }
    }

    method OverlayProjectRepos(canon: string -> string, src: seq<Repo>)
      modifies this
      ensures config == old(config).(repos := OverlayRepos(canon, old(config).repos, src))
    {
      if |src| == 0 {
        return;
      }
      var repos := src;
      for i := 0 to |repos|
        invariant |repos| == |src| && config == old(config)
        invariant forall j :: 0 <= j < i ==> repos[j] == Inherited(canon, config.repos, src[j])
        invariant forall j :: i <= j < |repos| ==> repos[j] == src[j]
      {
        var repo := repos[i];
        var j := Match(canon, repo);
        if j >= 0 {
          repo := Routed(repo, config.repos[j]);
        }
        repo := InheritOptOuts(canon, repo);
        repos := repos[i := repo];
      }
      config := config.(repos := repos);
      assert repos == OverlayRepos(canon, old(config).repos, src);
    }

    /** Lays a discovered project file over this, the user's, configuration. */
    method LayerProject(canon: string -> string, project: Config)
      modifies this
      ensures config == Layered(canon, old(config), project)
    {
      var stripped := new CliConfig(project);
      stripped.StripUntrusted();
      var src := stripped.config;
      config := config.(
        shared := OverlayShared(config.shared, src.shared), caCert := Or(src.caCert, config.caCert),
        insecureHttp := OrElse(src.insecureHttp, config.insecureHttp),
        requireRemote := OrElse(src.requireRemote, config.requireRemote),
        outputFormat := Or(src.outputFormat, config.outputFormat), outputFile := Or(src.outputFile, config.outputFile),
        dbPath := Or(src.dbPath, config.dbPath), dbSyncSource := Or(src.dbSyncSource, config.dbSyncSource),
        log := OverlayLog(config.log, src.log), hook := OverlayHook(config.hook, src.hook),
        registries := OverlayRegistries(config.registries, src.registries));
      OverlayProjectRepos(canon, src.repos);
    }
  }

  // ----- Resolving one target -----

  datatype Settings = Settings(
    server: string, apiKey: string, omitMetadata: bool, webhook: Webhook, mode: string, failOn: string,
    timeout: int, ecosystems: seq<string>, includeDev: bool,
    caCert: string, insecureHttp: bool, requireRemote: bool)

  /** What the environment holds under a name, if it is set, and whether a key
      from the environment or the command line replaces the configured one. */
  datatype Env = Env(lookup: string -> Option<string>, skipKeyEnv: bool)

  /** None when a named variable is not set. */
  function ApplyShared(env: Env, s: Settings, c: Shared): Option<Settings> {
    var useEnv := c.apiKeyEnv != "" && !env.skipKeyEnv;
    if useEnv && env.lookup(c.apiKeyEnv).None? then None
    else Some(s.(
      server := Or(c.server, s.server),
      apiKey := if useEnv then env.lookup(c.apiKeyEnv).value else Or(c.apiKey, s.apiKey),
      omitMetadata := if c.sendMetadata.Some? then !c.sendMetadata.value else s.omitMetadata,
      webhook := Webhook(Or(c.webhook.url, s.webhook.url), Or(c.webhook.secret, s.webhook.secret)),
      mode := Or(c.mode, s.mode), failOn := Or(c.failOn, s.failOn),
      timeout := if c.timeout > 0 then c.timeout else s.timeout,
      ecosystems := if |c.ecosystems| > 0 then c.ecosystems else s.ecosystems,
      includeDev := if c.includeDev.Some? then c.includeDev.value else s.includeDev))
  }

  function ApplyConfig(env: Env, s: Settings, c: Config): Option<Settings> {
    match ApplyShared(env, s, c.shared)
    case None => None
    case Some(t) =>
      Some(t.(caCert := Or(c.caCert, t.caCert),
              insecureHttp := if c.insecureHttp.Some? then c.insecureHttp.value else t.insecureHttp,
              requireRemote := if c.requireRemote.Some? then c.requireRemote.value else t.requireRemote))
  }

  /** The settings for a target: the configuration, then its repository entry. */
  function Resolve(env: Env, defaults: Settings, c: Config, repo: Option<Repo>): Option<Settings> {
    match ApplyConfig(env, defaults, c)
    case None => None
    case Some(s) => if repo.Some? then ApplyShared(env, s, repo.value.shared) else Some(s)
  }

  class ScanSettings {
    var server: string
    var apiKey: string
    var omitMetadata: bool
    var webhook: Webhook
    var mode: string
    var failOn: string
    var timeout: int
    var ecosystems: seq<string>
    var includeDev: bool
    var caCert: string
    var insecureHttp: bool
    var requireRemote: bool

    function View(): Settings
      reads this
    {
      Settings(server, apiKey, omitMetadata, webhook, mode, failOn, timeout, ecosystems, includeDev,
               caCert, insecureHttp, requireRemote)
    }

    constructor (defaults: Settings)
      ensures View() == defaults
    {
      server, apiKey, omitMetadata, webhook := defaults.server, defaults.apiKey, defaults.omitMetadata, defaults.webhook;
      mode, failOn, timeout := defaults.mode, defaults.failOn, defaults.timeout;
      ecosystems, includeDev := defaults.ecosystems, defaults.includeDev;
      caCert, insecureHttp, requireRemote := defaults.caCert, defaults.insecureHttp, defaults.requireRemote;
    }

    method ApplyConnection(env: Env, c: Shared) returns (ok: bool)
      modifies this`server, this`apiKey
      ensures ok <==> !(c.apiKeyEnv != "" && !env.skipKeyEnv && env.lookup(c.apiKeyEnv).None?)
      ensures server == Or(c.server, old(server))
      ensures ok ==> apiKey == if c.apiKeyEnv != "" && !env.skipKeyEnv then env.lookup(c.apiKeyEnv).value
                               else Or(c.apiKey, old(apiKey))
    {
      if c.server != "" {
        server := c.server;
      }
      if c.apiKey != "" {
        apiKey := c.apiKey;
      }
      if c.apiKeyEnv != "" && !env.skipKeyEnv {
        var key := env.lookup(c.apiKeyEnv);
        if key.None? {
          return false;
        }
        apiKey := key.value;
      }
      return true;
    }

    method ApplyPolicy(c: Shared)
      modifies this`mode, this`failOn, this`timeout, this`ecosystems, this`includeDev
      ensures mode == Or(c.mode, old(mode)) && failOn == Or(c.failOn, old(failOn))
      ensures timeout == if c.timeout > 0 then c.timeout else old(timeout)
      ensures ecosystems == if |c.ecosystems| > 0 then c.ecosystems else old(ecosystems)
      ensures includeDev == if c.includeDev.Some? then c.includeDev.value else old(includeDev)
    {
      if c.mode != "" {
        mode := c.mode;
      }
      if c.failOn != "" {
        failOn := c.failOn;
      }
      if c.timeout > 0 {
        timeout := c.timeout;
      }
      if |c.ecosystems| > 0 {
        ecosystems := c.ecosystems;
      }
      if c.includeDev.Some? {
        includeDev := c.includeDev.value;
      }
    }

    method ApplyReporting(c: Shared)
      modifies this`omitMetadata, this`webhook
      ensures omitMetadata == if c.sendMetadata.Some? then !c.sendMetadata.value else old(omitMetadata)
      ensures webhook == Webhook(Or(c.webhook.url, old(webhook).url), Or(c.webhook.secret, old(webhook).secret))
    {
      if c.sendMetadata.Some? {
        omitMetadata := !c.sendMetadata.value;
      }
      if c.webhook.url != "" {
        webhook := webhook.(url := c.webhook.url);
      }
      if c.webhook.secret != "" {
        webhook := webhook.(secret := c.webhook.secret);
      }
    }

    method ApplySharedSettings(env: Env, c: Shared) returns (ok: bool)
      modifies this
      ensures ok <==> ApplyShared(env, old(View()), c).Some?
      ensures ok ==> Some(View()) == ApplyShared(env, old(View()), c)
    {
      ok := ApplyConnection(env, c);
      if ok {
        ApplyPolicy(c);
        ApplyReporting(c);
        ghost var s := ApplyShared(env, old(View()), c).value;
        assert s.server == server && s.apiKey == apiKey && s.webhook == webhook;
      }
    }

    method ApplyTransport(c: Config)
      modifies this`caCert, this`insecureHttp, this`requireRemote
      ensures caCert == Or(c.caCert, old(caCert))
      ensures insecureHttp == if c.insecureHttp.Some? then c.insecureHttp.value else old(insecureHttp)
      ensures requireRemote == if c.requireRemote.Some? then c.requireRemote.value else old(requireRemote)
    {
      if c.caCert != "" {
        caCert := c.caCert;
      }
      if c.insecureHttp.Some? {
        insecureHttp := c.insecureHttp.value;
      }
      if c.requireRemote.Some? {
        requireRemote := c.requireRemote.value;
      }
    }

    method ResolveTarget(env: Env, c: Config, repo: Option<Repo>) returns (ok: bool)
      modifies this
      ensures ok <==> Resolve(env, old(View()), c, repo).Some?
      ensures ok ==> Some(View()) == Resolve(env, old(View()), c, repo)
    {
      ok := ApplySharedSettings(env, c.shared);
      if !ok {
        return;
      }
      ApplyTransport(c);
      assert Some(View()) == ApplyConfig(env, old(View()), c);
      if repo.Some? {
        ok := ApplySharedSettings(env, repo.value.shared);
      }
    }
  }

  // ----- Where data goes -----

  /** The settings that decide where a scan sends data agree. */
  predicate SameRouting(a: Settings, b: Settings) {
    && a.server == b.server && a.apiKey == b.apiKey && a.webhook == b.webhook
    && a.caCert == b.caCert && a.insecureHttp == b.insecureHttp && a.requireRemote == b.requireRemote
  }

  predicate SameOutcome(a: Option<Settings>, b: Option<Settings>) {
    (a.Some? <==> b.Some?) && (a.Some? ==> SameRouting(a.value, b.value))
  }

  predicate RoutesAlike(a: Shared, b: Shared) {
    a.server == b.server && a.apiKey == b.apiKey && a.apiKeyEnv == b.apiKeyEnv && a.webhook == b.webhook
  }

  lemma {:induction false} OptOutsKeepRouting(canon: string -> string, base: seq<Repo>, repo: Repo, n: nat)
    requires n <= |base|
    ensures var merged := AllOptOuts(canon, base, repo, n);
      RoutesAlike(merged.shared, repo.shared) && merged.name == repo.name && merged.path == repo.path
  {
    if n > 0 {
      OptOutsKeepRouting(canon, base, repo, n - 1);
    }
  }

  /** The trusted entry whose routing a target of the layered configuration
      uses, in the user's configuration. */
  function TrustedEntry(canon: string -> string, user: Config, project: Config, i: nat): Option<Repo>
    requires i < |Layered(canon, user, project).repos|
  {
    if |project.repos| == 0 then Some(user.repos[i]) else Matched(canon, user.repos, project.repos[i])
  }

  lemma MatchIgnoresShared(canon: string -> string, base: seq<Repo>, repo: Repo, shared: Shared)
    ensures Matched(canon, base, repo.(shared := shared)) == Matched(canon, base, repo)
  {
  }

  predicate IsSet(s: string) { s != "" }

  /** Of everything the project file says at the top level, only scan policy, an
      opt-out, log and hook settings and the database source take effect, each only
      where it is set. */
  lemma TopLevelIsTheUsers(canon: string -> string, user: Config, project: Config)
    ensures var m := Layered(canon, user, project);
      && RoutesAlike(m.shared, user.shared)
      && (m.shared.sendMetadata == if project.shared.sendMetadata == Some(false) then Some(false) else user.shared.sendMetadata)
      && m == user.(shared := m.shared, log := m.log, hook := m.hook, dbSyncSource := m.dbSyncSource, repos := m.repos)
      && m.log.level == (if IsSet(project.log.level) then project.log.level else user.log.level)
      && m.log.format == (if IsSet(project.log.format) then project.log.format else user.log.format)
      && m.log.file == (if IsSet(project.log.file) then project.log.file else user.log.file)
      && m.hook.kind == (if IsSet(project.hook.kind) then project.hook.kind else user.hook.kind)
      && m.hook.failOn == (if IsSet(project.hook.failOn) then project.hook.failOn else user.hook.failOn)
      && m.dbSyncSource == (if IsSet(project.dbSyncSource) then project.dbSyncSource else user.dbSyncSource)
  {
    assert OverlayRegistries(user.registries, NO_REGISTRIES) == user.registries;
    match project.shared.sendMetadata
    case Some(send) => assert project.shared.sendMetadata == Some(true) <==> send;
    case None =>
  }

  const UNSET := Shared("", "", "", None, Webhook("", ""), "", "", 0, [], None)

  function SharedOf(repo: Option<Repo>): Shared {
    if repo.Some? then repo.value.shared else UNSET
  }

  /** A merged entry routes like the trusted entry it refers to, or not at all. */
  lemma EntryRouting(canon: string -> string, user: Config, project: Config, i: nat)
    requires i < |Layered(canon, user, project).repos|
    ensures RoutesAlike(Layered(canon, user, project).repos[i].shared, SharedOf(TrustedEntry(canon, user, project, i)))
  {
    if |project.repos| > 0 {
      var repo := Strip(project).repos[i];
      var found := Matched(canon, user.repos, repo);
      MatchIgnoresShared(canon, user.repos, project.repos[i], repo.shared);
      OptOutsKeepRouting(canon, user.repos, if found.Some? then Routed(repo, found.value) else repo, |user.repos|);
    }
  }

  lemma AlikeShared(env: Env, s: Settings, t: Settings, a: Shared, b: Shared)
    requires SameRouting(s, t) && RoutesAlike(a, b)
    ensures SameOutcome(ApplyShared(env, s, a), ApplyShared(env, t, b))
  {
  }

  lemma UnsetApplies(env: Env, s: Settings)
    ensures ApplyShared(env, s, UNSET) == Some(s)
  {
  }

  /** Configurations and entries that route alike resolve alike. */
  lemma AlikeResolve(env: Env, defaults: Settings, a: Config, b: Config, x: Option<Repo>, y: Option<Repo>)
    requires RoutesAlike(a.shared, b.shared) && RoutesAlike(SharedOf(x), SharedOf(y))
    requires a.caCert == b.caCert && a.insecureHttp == b.insecureHttp && a.requireRemote == b.requireRemote
    ensures SameOutcome(Resolve(env, defaults, a, x), Resolve(env, defaults, b, y))
  {
    hide ApplyShared, RoutesAlike;
    AlikeShared(env, defaults, defaults, a.shared, b.shared);
    var s, t := ApplyConfig(env, defaults, a), ApplyConfig(env, defaults, b);
    if s.Some? {
      AlikeShared(env, s.value, t.value, SharedOf(x), SharedOf(y));
      UnsetApplies(env, s.value);
      UnsetApplies(env, t.value);
    }
  }

  /** Whatever the project file says, each of its targets is scanned with the
      server, API key, webhook and transport settings that the user's own
      configuration resolves for the matching trusted entry, or for no entry at
      all; and it fails to resolve exactly when that does. */
  lemma RoutingIsTheUsers(
      canon: string -> string, user: Config, project: Config, env: Env, defaults: Settings, i: nat)
    requires i < |Layered(canon, user, project).repos|
    ensures var m := Layered(canon, user, project);
      SameOutcome(Resolve(env, defaults, m, Some(m.repos[i])),
                  Resolve(env, defaults, user, TrustedEntry(canon, user, project, i)))
  {
    hide Resolve, Overlay;
    var m := Layered(canon, user, project);
    TopLevelIsTheUsers(canon, user, project);
    EntryRouting(canon, user, project, i);
    AlikeResolve(env, defaults, m, user, Some(m.repos[i]), TrustedEntry(canon, user, project, i));
  }

  /** A scan of no listed repository is routed by the user's configuration too. */
  lemma DefaultRoutingIsTheUsers(canon: string -> string, user: Config, project: Config, env: Env, defaults: Settings)
    ensures SameOutcome(Resolve(env, defaults, Layered(canon, user, project), None), Resolve(env, defaults, user, None))
  {
  }

  // ----- Repository metadata -----

  /** Whether a target's metadata is withheld. */
  predicate Omits(c: Config, repo: Option<Repo>, otherwise: bool) {
    if repo.Some? && repo.value.shared.sendMetadata.Some? then !repo.value.shared.sendMetadata.value
    else if c.shared.sendMetadata.Some? then !c.shared.sendMetadata.value
    else otherwise
  }

  lemma ResolveOmits(env: Env, defaults: Settings, c: Config, repo: Option<Repo>)
    requires Resolve(env, defaults, c, repo).Some?
    ensures Resolve(env, defaults, c, repo).value.omitMetadata == Omits(c, repo, defaults.omitMetadata)
  {
  }

  lemma {:induction false} OptOutsExact(canon: string -> string, base: seq<Repo>, repo: Repo, n: nat)
    requires n <= |base|
    ensures var merged := AllOptOuts(canon, base, repo, n).shared.sendMetadata;
      if exists k :: 0 <= k < n && Refers(canon, base[k], repo) && base[k].shared.sendMetadata == Some(false)
      then merged == Some(false) else merged == repo.shared.sendMetadata
  {
    if n > 0 {
      OptOutsExact(canon, base, repo, n - 1);
    }
  }

  lemma {:induction false} FirstNamedIsEntry(base: seq<Repo>, name: string, i: nat)
    requires i <= |base|
    ensures var r := FirstNamed(base, name, i);
      r.Some? ==> r.value.name == name && exists k :: i <= k < |base| && base[k] == r.value
    decreases |base| - i
  {
    if i < |base| && base[i].name != name {
      FirstNamedIsEntry(base, name, i + 1);
    }
  }

  lemma {:induction false} FirstAtIsEntry(canon: string -> string, base: seq<Repo>, path: string, i: nat)
    requires i <= |base|
    ensures var r := FirstAt(canon, base, path, i);
      r.Some? ==> SamePlace(canon, r.value.path, path) && exists k :: i <= k < |base| && base[k] == r.value
    decreases |base| - i
  {
    if i < |base| && !SamePlace(canon, base[i].path, path) {
      FirstAtIsEntry(canon, base, path, i + 1);
    }
  }

  /** A project entry withholds its metadata exactly when it says so itself or
      some trusted entry of its name or at its path does. */
  lemma InheritedOptOut(canon: string -> string, base: seq<Repo>, repo: Repo)
    ensures var own := repo.shared.sendMetadata;
      Inherited(canon, base, repo).shared.sendMetadata ==
      if exists k :: 0 <= k < |base| && Refers(canon, base[k], repo) && base[k].shared.sendMetadata == Some(false)
      then Some(false) else own
  {
    var found := Matched(canon, base, repo);
    var routed := if found.Some? then Routed(repo, found.value) else repo;
    FirstNamedIsEntry(base, repo.name, 0);
    FirstAtIsEntry(canon, base, repo.path, 0);
    OptOutsExact(canon, base, routed, |base|);
    assert forall k :: 0 <= k < |base| ==> (Refers(canon, base[k], routed) <==> Refers(canon, base[k], repo));
  }

  lemma OptOutInherited(canon: string -> string, user: Config, project: Config, otherwise: bool, i: nat, k: nat)
    requires i < |Layered(canon, user, project).repos| && k < |user.repos|
    requires if |project.repos| == 0 then i == k else Refers(canon, user.repos[k], project.repos[i])
    requires Omits(user, Some(user.repos[k]), otherwise)
    ensures Omits(Layered(canon, user, project), Some(Layered(canon, user, project).repos[i]), otherwise)
  {
    if |project.repos| > 0 {
      var repo := Strip(project).repos[i];
      assert Refers(canon, user.repos[k], repo);
      InheritedOptOut(canon, user.repos, repo);
    }
  }

  /** Whether the settings resolved for a target withhold its metadata. */
  predicate Withholds(env: Env, defaults: Settings, c: Config, repo: Option<Repo>) {
    var s := Resolve(env, defaults, c, repo);
    s.Some? && s.value.omitMetadata
  }

  /** An opt-out of the user survives every project file: if the user's own
      configuration resolves some repository without metadata, every target of the
      layered one that refers to it, by name or by path, and resolves at all does
      so without metadata. */
  lemma OptOutSurvives(
      canon: string -> string, user: Config, project: Config, env: Env, defaults: Settings, i: nat, k: nat)
    requires i < |Layered(canon, user, project).repos| && k < |user.repos|
    requires if |project.repos| == 0 then i == k else Refers(canon, user.repos[k], project.repos[i])
    requires Withholds(env, defaults, user, Some(user.repos[k]))
    ensures var m := Layered(canon, user, project);
      Resolve(env, defaults, m, Some(m.repos[i])).Some? ==> Withholds(env, defaults, m, Some(m.repos[i]))
  {
    hide Resolve, Omits, Overlay;
    var m := Layered(canon, user, project);
    ResolveOmits(env, defaults, user, Some(user.repos[k]));
    OptOutInherited(canon, user, project, defaults.omitMetadata, i, k);
    if Resolve(env, defaults, m, Some(m.repos[i])).Some? {
      ResolveOmits(env, defaults, m, Some(m.repos[i]));
    }
  }

  /** So does the opt-out for a scan of no listed repository, which resolves
      exactly when it does under the user's configuration alone. */
  lemma DefaultOptOutSurvives(canon: string -> string, user: Config, project: Config, env: Env, defaults: Settings)
    requires Withholds(env, defaults, user, None)
    ensures Withholds(env, defaults, Layered(canon, user, project), None)
  {
    hide Resolve, Overlay;
    var m := Layered(canon, user, project);
    TopLevelIsTheUsers(canon, user, project);
    DefaultRoutingIsTheUsers(canon, user, project, env, defaults);
    ResolveOmits(env, defaults, user, None);
    ResolveOmits(env, defaults, m, None);
  }

  /** Exactly when the layered configuration withholds a project entry's metadata:
      the user or the project opted out at the top, or in an entry it refers to. */
  lemma OmitsExactly(canon: string -> string, user: Config, project: Config, env: Env, defaults: Settings, i: nat)
    requires i < |project.repos| && !defaults.omitMetadata
    requires Resolve(env, defaults, Layered(canon, user, project), Some(Layered(canon, user, project).repos[i])).Some?
    ensures Withholds(env, defaults, Layered(canon, user, project), Some(Layered(canon, user, project).repos[i])) <==>
      || user.shared.sendMetadata == Some(false)
      || project.shared.sendMetadata == Some(false)
      || project.repos[i].shared.sendMetadata == Some(false)
      || exists k :: 0 <= k < |user.repos| && Refers(canon, user.repos[k], project.repos[i])
                     && user.repos[k].shared.sendMetadata == Some(false)
  {
    hide Resolve;
    var repo := Strip(project).repos[i];
    ResolveOmits(env, defaults, Layered(canon, user, project), Some(Layered(canon, user, project).repos[i]));
    InheritedOptOut(canon, user.repos, repo);
    assert forall k :: 0 <= k < |user.repos| ==>
             (Refers(canon, user.repos[k], repo) <==> Refers(canon, user.repos[k], project.repos[i]));
  }

  // ----- What a target resolves to, setting by setting -----

  function Text(s: string): Option<string> { if s == "" then None else Some(s) }

  function Positive(n: int): Option<int> { if n > 0 then Some(n) else None }

  function NonZero(n: int): Option<int> { if n != 0 then Some(n) else None }

  function NonEmpty(s: seq<string>): Option<seq<string>> { if s == [] then None else Some(s) }

  function Not(b: Option<bool>): Option<bool> { if b.Some? then Some(!b.value) else None }

  /** The first of these choices that is made. */
  function Prefer<T>(first: Option<T>, second: Option<T>, otherwise: T): T {
    if first.Some? then first.value else if second.Some? then second.value else otherwise
  }

  predicate NamesKey(env: Env, c: Shared) { c.apiKeyEnv != "" && !env.skipKeyEnv }

  /** A named variable wins over a key written in the same place. */
  function KeyOf(env: Env, c: Shared): Option<string> {
    if NamesKey(env, c) then env.lookup(c.apiKeyEnv) else Text(c.apiKey)
  }

  predicate KeyMissing(env: Env, c: Shared) { NamesKey(env, c) && env.lookup(c.apiKeyEnv).None? }

  /** A target fails to resolve exactly when its entry or the configuration names a
      variable that is not set.  Otherwise server, key, webhook and opt-out are those
      its entry sets, else the configuration's, else the default; the transport
      settings are the configuration's or the default. */
  lemma ResolvedExactly(env: Env, defaults: Settings, c: Config, repo: Option<Repo>)
    ensures var s, r, t := Resolve(env, defaults, c, repo), SharedOf(repo), c.shared;
      && (s.None? <==> KeyMissing(env, t) || KeyMissing(env, r))
      && (s.Some? ==>
            && s.value.server == Prefer(Text(r.server), Text(t.server), defaults.server)
            && s.value.apiKey == Prefer(KeyOf(env, r), KeyOf(env, t), defaults.apiKey)
            && s.value.webhook.url == Prefer(Text(r.webhook.url), Text(t.webhook.url), defaults.webhook.url)
            && s.value.webhook.secret == Prefer(Text(r.webhook.secret), Text(t.webhook.secret), defaults.webhook.secret)
            && s.value.omitMetadata == Prefer(Not(r.sendMetadata), Not(t.sendMetadata), defaults.omitMetadata)
            && s.value.caCert == Prefer(Text(c.caCert), None, defaults.caCert)
            && s.value.insecureHttp == Prefer(c.insecureHttp, None, defaults.insecureHttp)
            && s.value.requireRemote == Prefer(c.requireRemote, None, defaults.requireRemote))
  {
  }

  /** The same of the scan policy. */
  lemma ResolvedPolicy(env: Env, defaults: Settings, c: Config, repo: Option<Repo>)
    ensures var s, r, t := Resolve(env, defaults, c, repo), SharedOf(repo), c.shared;
      s.Some? ==>
        && s.value.mode == Prefer(Text(r.mode), Text(t.mode), defaults.mode)
        && s.value.failOn == Prefer(Text(r.failOn), Text(t.failOn), defaults.failOn)
        && s.value.timeout == Prefer(Positive(r.timeout), Positive(t.timeout), defaults.timeout)
        && s.value.ecosystems == Prefer(NonEmpty(r.ecosystems), NonEmpty(t.ecosystems), defaults.ecosystems)
        && s.value.includeDev == Prefer(r.includeDev, t.includeDev, defaults.includeDev)
  {
  }

  /** The trusted entry is the first of the same name or, if no name fits, the first
      at the same place; there is none exactly if no entry is referred to. */
  lemma MatchMeans(canon: string -> string, base: seq<Repo>, repo: Repo) returns (k: nat)
    ensures Matched(canon, base, repo).None? <==>
              forall j :: 0 <= j < |base| ==> base[j].name != repo.name && canon(base[j].path) != canon(repo.path)
    ensures Matched(canon, base, repo).Some? ==> k < |base| && Matched(canon, base, repo).value == base[k]
    ensures Matched(canon, base, repo).Some? && (exists j :: 0 <= j < |base| && base[j].name == repo.name) ==>
              base[k].name == repo.name && forall j :: 0 <= j < k ==> base[j].name != repo.name
    ensures Matched(canon, base, repo).Some? && (forall j :: 0 <= j < |base| ==> base[j].name != repo.name) ==>
              canon(base[k].path) == canon(repo.path) && forall j :: 0 <= j < k ==> canon(base[j].path) != canon(repo.path)
  {
    k := FirstNamedAt(base, repo.name, 0);
    if FirstNamed(base, repo.name, 0).None? {
      k := FirstPlaceAt(canon, base, repo.path, 0);
    }
  }

  lemma {:induction false} FirstNamedAt(base: seq<Repo>, name: string, i: nat) returns (k: nat)
    requires i <= |base|
    ensures FirstNamed(base, name, i).Some? ==>
              i <= k < |base| && FirstNamed(base, name, i).value == base[k] && base[k].name == name &&
              forall j :: i <= j < k ==> base[j].name != name
    ensures FirstNamed(base, name, i).None? ==> forall j :: i <= j < |base| ==> base[j].name != name
    decreases |base| - i
  {
    k := i;
    if i < |base| && base[i].name != name {
      k := FirstNamedAt(base, name, i + 1);
    }
  }

  lemma {:induction false} FirstPlaceAt(canon: string -> string, base: seq<Repo>, path: string, i: nat) returns (k: nat)
    requires i <= |base|
    ensures FirstAt(canon, base, path, i).Some? ==>
              i <= k < |base| && FirstAt(canon, base, path, i).value == base[k] && SamePlace(canon, base[k].path, path) &&
              forall j :: i <= j < k ==> !SamePlace(canon, base[j].path, path)
    ensures FirstAt(canon, base, path, i).None? ==> forall j :: i <= j < |base| ==> !SamePlace(canon, base[j].path, path)
    decreases |base| - i
  {
    k := i;
    if i < |base| && !SamePlace(canon, base[i].path, path) {
      k := FirstPlaceAt(canon, base, path, i + 1);
    }
  }

  /** The scan policy of two entries agrees. */
  predicate SamePolicy(a: Shared, b: Shared) {
    && a.mode == b.mode && a.failOn == b.failOn && a.timeout == b.timeout && a.ecosystems == b.ecosystems
    && a.includeDev == b.includeDev
  }

  /** The entry whose name, path and policy a target of the layered configuration has. */
  function ListedEntry(canon: string -> string, user: Config, project: Config, i: nat): Repo
    requires i < |Layered(canon, user, project).repos|
  {
    if |project.repos| == 0 then user.repos[i] else project.repos[i]
  }

  lemma {:induction false} OptOutsKeepPolicy(canon: string -> string, base: seq<Repo>, repo: Repo, n: nat)
    requires n <= |base|
    ensures SamePolicy(AllOptOuts(canon, base, repo, n).shared, repo.shared)
  {
    if n > 0 {
      OptOutsKeepPolicy(canon, base, repo, n - 1);
    }
  }

  /** The project's list of repositories, if it has one, replaces the user's: its
      entries keep their names, paths and policies. */
  lemma EntriesListed(canon: string -> string, user: Config, project: Config, i: nat)
    ensures |Layered(canon, user, project).repos| == if |project.repos| == 0 then |user.repos| else |project.repos|
    ensures i < |Layered(canon, user, project).repos| ==>
      var e, m := ListedEntry(canon, user, project, i), Layered(canon, user, project).repos[i];
      m.name == e.name && m.path == e.path && SamePolicy(m.shared, e.shared)
  {
    if |project.repos| > 0 && i < |project.repos| {
      var repo := Strip(project).repos[i];
      var found := Matched(canon, user.repos, repo);
      var routed := if found.Some? then Routed(repo, found.value) else repo;
      OptOutsKeepRouting(canon, user.repos, routed, |user.repos|);
      OptOutsKeepPolicy(canon, user.repos, routed, |user.repos|);
    }
  }

  /** The policy a target is scanned with: each setting is the listed entry's if it
      makes one, else the project file's, else the user's, else the default.  A
      timeout that is not positive counts as unset; a negative one in the project
      file would hide the user's, were it not rejected when the file is read. */
  lemma PolicyLayers(canon: string -> string, user: Config, project: Config, env: Env, defaults: Settings, i: nat)
    requires i < |Layered(canon, user, project).repos|
    ensures var m, e := Layered(canon, user, project), ListedEntry(canon, user, project, i).shared;
      var s, p, u := Resolve(env, defaults, m, Some(m.repos[i])), project.shared, user.shared;
      s.Some? ==>
        && s.value.mode == Prefer(Text(e.mode), Text(p.mode), Prefer(Text(u.mode), None, defaults.mode))
        && s.value.failOn == Prefer(Text(e.failOn), Text(p.failOn), Prefer(Text(u.failOn), None, defaults.failOn))
        && s.value.ecosystems ==
             Prefer(NonEmpty(e.ecosystems), NonEmpty(p.ecosystems), Prefer(NonEmpty(u.ecosystems), None, defaults.ecosystems))
        && s.value.includeDev == Prefer(e.includeDev, p.includeDev, Prefer(u.includeDev, None, defaults.includeDev))
        && s.value.timeout ==
             Prefer(Positive(e.timeout), Positive(Prefer(NonZero(p.timeout), NonZero(u.timeout), 0)), defaults.timeout)
  {
    hide Resolve;
    var m := Layered(canon, user, project);
    EntriesListed(canon, user, project, i);
    ResolvedPolicy(env, defaults, m, Some(m.repos[i]));
    TopLevelPolicy(canon, user, project);
    hide Layered, Overlay;
  }

  lemma TopLevelPolicy(canon: string -> string, user: Config, project: Config)
    ensures var m, p, u := Layered(canon, user, project).shared, project.shared, user.shared;
      && m.mode == Prefer(Text(p.mode), Text(u.mode), "")
      && m.failOn == Prefer(Text(p.failOn), Text(u.failOn), "")
      && m.ecosystems == Prefer(NonEmpty(p.ecosystems), NonEmpty(u.ecosystems), [])
      && m.includeDev == (if p.includeDev.Some? then p.includeDev else u.includeDev)
      && m.timeout == Prefer(NonZero(p.timeout), NonZero(u.timeout), 0)
  {
  }

  /** Merged lists of hosts keep every value that is set, once, in the order of first
      occurrence: what a longer list adds comes behind. */
  lemma {:induction false} DedupMeans(values: seq<string>, k: nat)
    requires k <= |values|
    ensures Dedup(values[..k]) <= Dedup(values)
    ensures forall x :: x in Dedup(values) <==> x in values && x != ""
    ensures forall i, j :: 0 <= i < j < |Dedup(values)| ==> Dedup(values)[i] != Dedup(values)[j]
    decreases |values|
  {
    if values == [] {
      assert values[..k] == values;
    } else {
      var front, last := values[..|values| - 1], values[|values| - 1];
      assert values == front + [last];
      DedupMeans(front, if k == |values| then |front| else k);
      if k == |values| {
        assert values[..k] == values;
      } else {
        assert values[..k] == front[..k];
      }
    }
  }
}
