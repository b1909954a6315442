/**
 * When may a cached controller part be served? The controller-part cache of
 * `makeControllerUri` is keyed by application and raw spec only, so it is
 * sound exactly while each entry still agrees with the `url` section and the
 * alias table cached for its application (`Coherent`). Link building keeps
 * that invariant; `cleanLinkCache` as written breaks it, because it drops the
 * application's `url` section but keeps the controller parts built under it.
 */
module LinkCache {
  import opened Wrappers
  import opened PhpString
  import opened PhpArray
  import opened PhpValue
  import opened Config
  import opened View

  /** Every cached controller part is what its application's cached `url` section and alias table give afresh. */
  predicate Coherent(c: Caches) {
    forall k | k in c.controllerUri ::
      && k.0 in c.urlConfig
      && k.0 in c.alias
      && ControllerUri(c.urlConfig[k.0], c.alias[k.0], k.1) == Ok(c.controllerUri[k])
  }

  /** The alias table link building uses for `app`: the cached one, else the running app's. */
  function AliasInUse(env: Env, c: Caches, app: string): Arr<string> {
    if app in c.alias then c.alias[app] else AliasTable(env.current.router)
  }

  lemma NoCachesCoherent()
    ensures Coherent(NoCaches())
  {
  }

  /**
   * Under `Coherent`, the controller part `makeControllerUri` returns (cached
   * or not) is the one computed afresh under the app's cached `url` section,
   * and the caches stay coherent.
   */
  lemma MakeControllerUriCoherent(env: Env, c: Caches, app: string, useCache: bool, spec: string, cfg: UrlConfig)
    requires Coherent(c) && app in c.urlConfig && c.urlConfig[app] == cfg
    ensures var out := MakeControllerUri(env, c, app, useCache, spec, cfg);
            && Coherent(out.caches)
            && out.uri == ControllerUri(cfg, AliasInUse(env, c, app), spec)
            && AliasInUse(env, out.caches, app) == AliasInUse(env, c, app)
  {
    if useCache && (app, spec) in c.controllerUri {
      assert app in c.alias;
    } else {
      var c1 := ParseControllerAlias(env, c, app);
      ParseControllerAliasCoherent(env, c, app);
      assert c1.alias[app] == AliasInUse(env, c, app);
      var r := ControllerUri(cfg, c1.alias[app], spec);
      if r.Ok? {
        CoherentStore(c1, app, spec, r.value);
      }
    }
  }

  /** Fetching the alias table keeps the caches coherent. */
  lemma ParseControllerAliasCoherent(env: Env, c: Caches, app: string)
    requires Coherent(c)
    ensures Coherent(ParseControllerAlias(env, c, app))
  {
    var c1 := ParseControllerAlias(env, c, app);
    forall k | k in c1.controllerUri
      ensures k.0 in c1.urlConfig && k.0 in c1.alias
      ensures ControllerUri(c1.urlConfig[k.0], c1.alias[k.0], k.1) == Ok(c1.controllerUri[k])
    {
      assert k in c.controllerUri;
    }
  }

  /** Storing the controller part computed afresh under the cached section and alias table keeps the caches coherent. */
  lemma CoherentStore(c: Caches, app: string, spec: string, u: string)
    requires Coherent(c) && app in c.urlConfig && app in c.alias
    requires ControllerUri(c.urlConfig[app], c.alias[app], spec) == Ok(u)
    ensures Coherent(c.(controllerUri := c.controllerUri[(app, spec) := u]))
  {
  }

  /** Loading the `url` section keeps the caches coherent: a freshly loaded app has no cached controller part. */
  lemma LoadUrlConfigCoherent(env: Env, c: Caches, app: string, checkAppName: bool)
    requires Coherent(c)
    ensures Coherent(LoadUrlConfig(env, c, app, checkAppName).1)
  {
    var c1 := LoadUrlConfig(env, c, app, checkAppName).1;
    forall k | k in c1.controllerUri
      ensures k.0 in c1.urlConfig && k.0 in c1.alias
      ensures ControllerUri(c1.urlConfig[k.0], c1.alias[k.0], k.1) == Ok(c1.controllerUri[k])
    {
      assert k in c.controllerUri;
      assert k.0 in c.urlConfig;
    }
  }

  /**
   * Under `Coherent`, `makeUri` returns exactly the link computed afresh
   * under the `url` section it uses (the cached one, else a fresh one) and the
   * alias table in use, and leaves the caches coherent.
   */
  lemma MakeUriCoherent(env: Env, c: Caches, app: string, checkAppName: bool, spec: string, params: Params,
                        encrypt: bool, cipher: string -> string)
    requires Coherent(c)
    ensures var out := MakeUri(env, c, app, checkAppName, spec, params, encrypt, cipher);
            && Coherent(out.caches)
            && out.uri == match LoadUrlConfig(env, c, app, checkAppName).0
                          case Err(e) => Err(e)
                          case Ok(loaded) => BuildUri(loaded.0, AliasInUse(env, c, app), spec, params, encrypt, cipher)
  {
    var (loaded, c1) := LoadUrlConfig(env, c, app, checkAppName);
    LoadUrlConfigCoherent(env, c, app, checkAppName);
    var out := MakeUri(env, c, app, checkAppName, spec, params, encrypt, cipher);
    if loaded.Ok? {
      var (cfg, useCache) := loaded.value;
      assert AliasInUse(env, c1, app) == AliasInUse(env, c, app);
      MakeControllerUriCoherent(env, c1, app, useCache, spec, cfg);
      var ctl := MakeControllerUri(env, c1, app, useCache, spec, cfg);
      assert out.caches == ctl.caches;
    } else {
      assert out == Linked(Err(loaded.error), c1);
    }
  }

  /**
   * Whatever the caches hold, when the `url` section of `app` is not cached
   * the controller cache is bypassed: the link is the one computed afresh
   * under the section just loaded and the alias table in use.
   */
  lemma FreshSectionBypassesCache(env: Env, c: Caches, app: string, checkAppName: bool, spec: string, params: Params,
                                  encrypt: bool, cipher: string -> string)
    requires app !in c.urlConfig
    ensures var out := MakeUri(env, c, app, checkAppName, spec, params, encrypt, cipher);
            out.uri == match LoadUrlConfig(env, c, app, checkAppName).0
                       case Err(e) => Err(e)
                       case Ok(loaded) => BuildUri(loaded.0, AliasInUse(env, c, app), spec, params, encrypt, cipher)
  {
    var (loaded, c1) := LoadUrlConfig(env, c, app, checkAppName);
    if loaded.Ok? {
      assert !loaded.value.1;
      assert AliasInUse(env, c1, app) == AliasInUse(env, c, app);
    }
  }

  /**
   * `appUrl` into another application whose `url` section is not cached
   * links with that application's own `init.php` section, or fails when it
   * has none: the running app's configuration plays no part.
   */
  lemma AppUrlOtherApp(env: Env, c: Caches, base: string, app: string, spec: Option<string>, params: Params,
                       encrypt: bool, cipher: string -> string)
    requires app != env.current.name && app !in c.urlConfig
    requires !(spec.None? && params.NoParams?)
    ensures var out := AppUrl(env, c, base, app, spec, params, encrypt, cipher);
            out.uri == if app !in env.initFiles then Err(MissingAppConfig(app))
                       else match BuildUri(env.initFiles[app], AliasInUse(env, c, app), spec.GetOr(""), params, encrypt, cipher)
                            case Ok(u) => Ok(NormalizeBase(base) + u)
                            case Err(e) => Err(e)
  {
    FreshSectionBypassesCache(env, c, app, true, spec.GetOr(""), params, encrypt, cipher);
  }

  // ================================================================ cleaning

  /** `cleanLinkCache()` as written: only the running app's `url` section is dropped. */
  function CleanLinkCacheAsWritten(env: Env, c: Caches): (c': Caches)
    ensures env.current.name !in c'.urlConfig
    ensures c'.urlConfig == c.urlConfig - {env.current.name} && c'.alias == c.alias && c'.urlLinkBase == c.urlLinkBase
    ensures c'.controllerUri == c.controllerUri
  {
    c.(urlConfig := c.urlConfig - {env.current.name})
  }

  /** `cleanLinkCache()` as intended: the running app's `url` section and every controller part built under it are dropped. */
  function CleanLinkCache(env: Env, c: Caches): (c': Caches)
    ensures env.current.name !in c'.urlConfig
    ensures c'.urlConfig == c.urlConfig - {env.current.name} && c'.alias == c.alias && c'.urlLinkBase == c.urlLinkBase
    ensures forall k | k in c'.controllerUri :: k.0 != env.current.name && k in c.controllerUri && c'.controllerUri[k] == c.controllerUri[k]
    ensures forall k | k in c.controllerUri && k.0 != env.current.name :: k in c'.controllerUri
  {
    var app := env.current.name;
    c.(urlConfig := c.urlConfig - {app},
       controllerUri := map k | k in c.controllerUri && k.0 != app :: c.controllerUri[k])
  }

  /** The corrected cleaning keeps the caches coherent. */
  lemma CleanLinkCacheCoherent(env: Env, c: Caches)
    requires Coherent(c)
    ensures Coherent(CleanLinkCache(env, c))
  {
    var c' := CleanLinkCache(env, c);
    forall k | k in c'.controllerUri
      ensures k.0 in c'.urlConfig && k.0 in c'.alias
      ensures ControllerUri(c'.urlConfig[k.0], c'.alias[k.0], k.1) == Ok(c'.controllerUri[k])
    {
      assert k in c.controllerUri;
    }
  }

  /**
   * After the corrected cleaning, the next link of the running app is built
   * under its current `url` section, whatever was cached before.
   */
  lemma CleanThenLink(env: Env, c: Caches, spec: string, params: Params, encrypt: bool, cipher: string -> string)
    requires Coherent(c)
    ensures var c' := CleanLinkCache(env, c);
            MakeUri(env, c', env.current.name, false, spec, params, encrypt, cipher).uri
              == BuildUri(env.current.url, AliasInUse(env, c, env.current.name), spec, params, encrypt, cipher)
  {
    var c' := CleanLinkCache(env, c);
    CleanLinkCacheCoherent(env, c);
    MakeUriCoherent(env, c', env.current.name, false, spec, params, encrypt, cipher);
  }

  // ================================================================ the stale link

  /** A `url` section of grammar `t` with front controller `index.php`, separator "/" and no extension. */
  function PlainConfig(t: int): UrlConfig {
    UrlConfig(t, "/", "", "index.php", false, "", [])
  }

  /** The running app `app` with no aliases under the given `url` section. */
  function PlainEnv(cfg: UrlConfig): Env {
    Env(App("app", cfg, []), map[])
  }

  lemma PlainControllerUri(cfg: UrlConfig, controller: string)
    requires cfg.urlType == 1 || cfg.urlType == 2
    requires !cfg.rewrite && cfg.index == "index.php" && FreeOf(controller, ":") && Truthy(controller)
    ensures ControllerUri(cfg, [], controller) == Ok(if cfg.urlType == 1 then "?/" + controller else "index.php/" + controller)
  {
    SplitSpecJoin(controller, "");
    assert ResolveAlias([], controller) == controller;
    assert DefaultIndex(cfg.index);
    var seg := SegmentPrefix(cfg, controller) + controller;
    assert ControllerUri(cfg, [], controller) == Ok(seg + "");
    assert seg + "" == seg;
    if cfg.urlType == 1 {
      assert SegmentPrefix(cfg, controller) == "?/";
    } else {
      assert SegmentPrefix(cfg, controller) == "index.php/";
    }
  }

  /** The first link to `Main` under type 1 stores the type-1 controller part `"?/" + "Main"`. */
  lemma FirstLink(cipher: string -> string)
    ensures var o1 := MakeUri(PlainEnv(PlainConfig(1)), NoCaches(), "app", false, "Main", NoParams, false, cipher);
            && o1.uri == Ok("?/" + "Main")
            && ("app", "Main") in o1.caches.controllerUri && o1.caches.controllerUri[("app", "Main")] == "?/" + "Main"
  {
    var env1, cfg1, u := PlainEnv(PlainConfig(1)), PlainConfig(1), "?/" + "Main";
    assert FreeOf("Main", ":");
    PlainControllerUri(cfg1, "Main");
    assert ControllerUri(cfg1, [], "Main") == Ok(u);
    var table := AliasInUse(env1, NoCaches(), "app");
    assert table == [];
    assert ParamsPart(NoParams, cfg1, false, cipher, u) == Ok("");
    assert Assemble(cfg1, u, "") == u + "" == u;
    assert BuildUri(cfg1, table, "Main", NoParams, false, cipher) == Ok(u);
    NoCachesCoherent();
    MakeUriCoherent(env1, NoCaches(), "app", false, "Main", NoParams, false, cipher);
    var o1 := MakeUri(env1, NoCaches(), "app", false, "Main", NoParams, false, cipher);
    assert o1.uri == Ok(u);
    var c := o1.caches;
    assert ("app", "Main") in c.controllerUri;
    assert c.urlConfig["app"] == cfg1;
    assert c.alias["app"] == [];
    assert ControllerUri(c.urlConfig["app"], c.alias["app"], "Main") == Ok(c.controllerUri[("app", "Main")]);
  }
  /** A cached `url` section with a cached controller part serves that part as the link, for a spec without params. */
  lemma CachedLink(env: Env, c: Caches, spec: string, cipher: string -> string)
    requires env.current.name in c.urlConfig && !Truthy(c.urlConfig[env.current.name].ext)
    requires (env.current.name, spec) in c.controllerUri
    ensures MakeUri(env, c, env.current.name, false, spec, NoParams, false, cipher).uri
              == Ok(c.controllerUri[(env.current.name, spec)])
  {
    var u := c.controllerUri[(env.current.name, spec)];
    assert u + "" == u;
  }

  /**
   * Once the running app's `url` section is gone but a controller part for
   * `spec` survives, a link to any other spec reloads the section, and the
   * next link to `spec` is the surviving part, whatever the section now says.
   */
  lemma ReloadThenCached(env: Env, c: Caches, other: string, spec: string, cipher: string -> string)
    requires env.current.name !in c.urlConfig && (env.current.name, spec) in c.controllerUri
    requires other != spec && !Truthy(env.current.url.ext)
    ensures var o2 := MakeUri(env, c, env.current.name, false, other, NoParams, false, cipher);
            MakeUri(env, o2.caches, env.current.name, false, spec, NoParams, false, cipher).uri
              == Ok(c.controllerUri[(env.current.name, spec)])
  {
    var app := env.current.name;
    var o2 := MakeUri(env, c, app, false, other, NoParams, false, cipher);
    var c1 := LoadUrlConfig(env, c, app, false).1;
    assert c1.urlConfig[app] == env.current.url;
    assert o2.caches.urlConfig == MakeControllerUri(env, c1, app, false, other, env.current.url).caches.urlConfig;
    assert (app, spec) in o2.caches.controllerUri && o2.caches.controllerUri[(app, spec)] == c.controllerUri[(app, spec)];
    CachedLink(env, o2.caches, spec, cipher);
  }

  /** Built afresh under type 2, the link to `Main` is `"index.php/" + "Main"`. */
  lemma FreshTypeTwoLink(cipher: string -> string)
    ensures BuildUri(PlainConfig(2), [], "Main", NoParams, false, cipher) == Ok("index.php/" + "Main")
  {
    var cfg2, u := PlainConfig(2), "index.php/" + "Main";
    assert FreeOf("Main", ":");
    PlainControllerUri(cfg2, "Main");
    assert ControllerUri(cfg2, [], "Main") == Ok(u);
    assert ParamsPart(NoParams, cfg2, false, cipher, u) == Ok("");
    assert Assemble(cfg2, u, "") == u + "" == u;
  }

  /**
   * The as-written cleaning serves a stale link: after a link to `Main` under
   * type 1, the grammar switches to type 2 and the cache is cleaned; a link to
   * `Other` reloads the `url` section, and then `Main` comes back as the
   * type-1 text `"?/Main"` although the type-2 link is `"index.php/Main"`.
   */
  lemma StaleLinkAfterClean(cipher: string -> string)
    ensures var env1, env2 := PlainEnv(PlainConfig(1)), PlainEnv(PlainConfig(2));
            var o1 := MakeUri(env1, NoCaches(), "app", false, "Main", NoParams, false, cipher);
            var o2 := MakeUri(env2, CleanLinkCacheAsWritten(env2, o1.caches), "app", false, "Other", NoParams, false, cipher);
            var o3 := MakeUri(env2, o2.caches, "app", false, "Main", NoParams, false, cipher);
            && o3.uri == Ok("?/" + "Main")
            && BuildUri(PlainConfig(2), [], "Main", NoParams, false, cipher) == Ok("index.php/" + "Main")
            && o3.uri != BuildUri(env2.current.url, [], "Main", NoParams, false, cipher)
  {
    var env1, env2 := PlainEnv(PlainConfig(1)), PlainEnv(PlainConfig(2));
    FirstLink(cipher);
    var o1 := MakeUri(env1, NoCaches(), "app", false, "Main", NoParams, false, cipher);
    var c1 := CleanLinkCacheAsWritten(env2, o1.caches);
    assert "Other" != "Main" by { assert "Other"[0] != "Main"[0]; }
    ReloadThenCached(env2, c1, "Other", "Main", cipher);
    FreshTypeTwoLink(cipher);
    assert ("?/" + "Main")[0] != ("index.php/" + "Main")[0];
  }
}
