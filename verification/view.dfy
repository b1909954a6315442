/**
 * Link building of `View`: from a `"controller[:action]"` spec and a parameter
 * array to a URL under one of five grammars, with the controller alias table
 * taken from the `router` configuration and the memo caches of the source
 * made explicit as a `Caches` record threaded through every call.
 */
module View {
  import opened Wrappers
  import opened PhpString
  import opened PhpArray
  import opened PhpValue
  import opened ParamCodec
  import opened Config
  import UrlEncode

  /** Why link building gives up. */
  datatype LinkError =
    | UnsupportedUrlType(urlType: int)  // a grammar other than 1 to 5 outside rewrite mode
    | ParamsNotArray                    // a non-empty scalar handed to the array-typed parameter builder
    | MissingAppConfig(app: string)     // another application's `init.php` does not exist

  /**
   * The static state link building keeps between calls: the `url` section per
   * application, the controller part of a link per application and raw spec,
   * the inverted `router` table per application, and the base link `url()`
   * captured on its first call. Only the `url` sections are a static of the
   * class shared by every view; the other three are function statics, which
   * are kept per view class, so one value here stands for a single view class.
   */
  datatype Caches = Caches(
    urlConfig: map<string, UrlConfig>,
    controllerUri: map<(string, string), string>,
    alias: map<string, Arr<string>>,
    urlLinkBase: Option<string>)

  /** The caches at the start of a process. */
  function NoCaches(): Caches {
    Caches(map[], map[], map[], None)
  }

  /** A link-building step: its outcome and the caches it leaves behind (also when it fails). */
  datatype Linked = Linked(uri: Result<string, LinkError>, caches: Caches)

  // ================================================================ aliases

  /**
   * The alias table `parseControllerAlias` builds from the `router` section:
   * every configured value becomes a key mapped to its entry's key, in order,
   * so a later entry with the same value wins.
   */
  function AliasTable(router: Arr<string>): Arr<string>
    decreases |router|
  {
    if |router| == 0 then []
    else
      var last := router[|router| - 1];
      Put(AliasTable(router[..|router| - 1]), NormKey(last.1), KeyString(last.0))
  }

  /** A configured value maps to the key of the last `router` entry holding it. */
  lemma {:induction false} AliasLast(router: Arr<string>, i: nat)
    requires i < |router|
    requires forall j :: i < j < |router| ==> NormKey(router[j].1) != NormKey(router[i].1)
    ensures Get(AliasTable(router), NormKey(router[i].1)) == Some(KeyString(router[i].0))
    decreases |router|
  {
    var n := |router| - 1;
    var prefix := router[..n];
    var k, v := NormKey(router[n].1), KeyString(router[n].0);
    if i == n {
      PutGet(AliasTable(prefix), k, v);
    } else {
      assert prefix[i] == router[i];
      forall j | i < j < |prefix| ensures NormKey(prefix[j].1) != NormKey(prefix[i].1) {
        assert prefix[j] == router[j];
      }
      AliasLast(prefix, i);
      PutGetOther(AliasTable(prefix), k, v, NormKey(router[i].1));
    }
  }

  /** A key that is no configured value is not in the alias table. */
  lemma {:induction false} AliasAbsent(router: Arr<string>, key: Key)
    requires forall j :: 0 <= j < |router| ==> NormKey(router[j].1) != key
    ensures Get(AliasTable(router), key) == None
    decreases |router|
  {
    if |router| > 0 {
      var n := |router| - 1;
      var prefix := router[..n];
      forall j | 0 <= j < |prefix| ensures NormKey(prefix[j].1) != key {
        assert prefix[j] == router[j];
      }
      AliasAbsent(prefix, key);
      PutGetOther(AliasTable(prefix), NormKey(router[n].1), KeyString(router[n].0), key);
    }
  }

  /** `parseControllerAlias($app)`: the cached table, or one built from the running app's `router` and cached. */
  function ParseControllerAlias(env: Env, c: Caches, app: string): (c': Caches)
    ensures app in c'.alias
    ensures app in c.alias ==> c' == c
    ensures app !in c.alias ==> c'.alias[app] == AliasTable(env.current.router)
    ensures c'.urlConfig == c.urlConfig && c'.controllerUri == c.controllerUri && c'.urlLinkBase == c.urlLinkBase
    ensures forall a | a in c.alias :: a in c'.alias && c'.alias[a] == c.alias[a]
    ensures forall a | a in c'.alias :: a in c.alias || a == app
  {
    if app in c.alias then c else c.(alias := c.alias[app := AliasTable(env.current.router)])
  }

  /** The spec a requested controller spec stands for: the alias entry's key, or the spec itself. */
  function ResolveAlias(table: Arr<string>, spec: string): string {
    match Get(table, NormKey(spec))
    case Some(target) => target
    case None => spec
  }

  /**
   * A spec equal to a configured `router` value (after key normalisation) is
   * replaced by that entry's key before it is split, the last entry winning.
   */
  lemma AliasSubstituted(cfg: UrlConfig, router: Arr<string>, i: nat, spec: string)
    requires i < |router| && NormKey(spec) == NormKey(router[i].1)
    requires forall j :: i < j < |router| ==> NormKey(router[j].1) != NormKey(router[i].1)
    ensures ControllerUri(cfg, AliasTable(router), spec) == ControllerUri(cfg, [], KeyString(router[i].0))
  {
    AliasLast(router, i);
  }

  // ================================================================ controller part

  /** `strcasecmp($index, 'index.php') == 0`. */
  predicate DefaultIndex(index: string) {
    EqualsIgnoreCase(index, "index.php")
  }

  /**
   * What the controller part puts in front of the controller. Nothing in
   * rewrite mode. Otherwise types 1 and 3 use `"?"`, followed by `"/"` when
   * the controller is truthy, if the front controller is `index.php` in any
   * case, and `index + "?"` for any other front controller; types 2, 4 and 5
   * use `index + "/"`.
   */
  function SegmentPrefix(cfg: UrlConfig, controller: string): string {
    if cfg.rewrite then ""
    else if cfg.urlType == 1 || cfg.urlType == 3 then
      if DefaultIndex(cfg.index) then "?" + (if Truthy(controller) then "/" else "") else cfg.index + "?"
    else cfg.index + "/"
  }

  /** The controller part of a link before the action: refused for a type other than 1 to 5 outside rewrite mode. */
  function ControllerSegment(cfg: UrlConfig, controller: string): (r: Result<string, LinkError>)
    ensures r.Ok? <==> cfg.rewrite || 1 <= cfg.urlType <= 5
    ensures r.Err? ==> r.error == UnsupportedUrlType(cfg.urlType)
    ensures r.Ok? ==> |r.value| >= |controller| && r.value[|r.value| - |controller|..] == controller
    ensures r.Ok? && cfg.rewrite ==> r.value == controller
    ensures r.Ok? && !cfg.rewrite && (cfg.urlType == 1 || cfg.urlType == 3) ==>
              r.value == if DefaultIndex(cfg.index) then "?" + (if Truthy(controller) then "/" else "") + controller
                         else cfg.index + "?" + controller
    ensures r.Ok? && !cfg.rewrite && (cfg.urlType == 2 || cfg.urlType == 4 || cfg.urlType == 5) ==>
              r.value == cfg.index + "/" + controller
  {
    if cfg.rewrite || 1 <= cfg.urlType <= 5 then Ok(SegmentPrefix(cfg, controller) + controller)
    else Err(UnsupportedUrlType(cfg.urlType))
  }

  /**
   * The controller part of a link, computed afresh: alias substitution, the
   * split at ':', the controller segment, and `dot + action` when the spec
   * had an action.
   */
  function ControllerUri(cfg: UrlConfig, table: Arr<string>, spec: string): Result<string, LinkError> {
    var (controller, action) := SplitSpec(ResolveAlias(table, spec));
    match ControllerSegment(cfg, controller)
    case Err(e) => Err(e)
    case Ok(seg) => Ok(seg + (if action.Some? then cfg.dot + action.value else ""))
  }

  /**
   * Without an alias for it, the controller part of `controller:action` is the
   * type's prefix, the controller, `dot` and the action.
   */
  lemma ControllerUriShape(cfg: UrlConfig, table: Arr<string>, controller: string, action: string)
    requires cfg.rewrite || 1 <= cfg.urlType <= 5
    requires FreeOf(controller, ":") && FreeOf(action, ":")
    requires Get(table, NormKey(controller + ":" + action)) == None
    ensures ControllerUri(cfg, table, controller + ":" + action)
              == Ok(SegmentPrefix(cfg, controller) + controller + cfg.dot + action)
  {
    SplitSpecJoin(controller, action);
    var seg := ControllerSegment(cfg, controller);
    assert ResolveAlias(table, controller + ":" + action) == controller + ":" + action;
    assert ControllerUri(cfg, table, controller + ":" + action) == Ok(seg.value + (cfg.dot + action));
    var pre := SegmentPrefix(cfg, controller);
    assert seg.value == pre + controller;
    ConcatAssoc(pre + controller, cfg.dot, action);
  }

  /**
   * `makeControllerUri`: a cached controller part is served only when the
   * caller allows the cache; otherwise the alias table is fetched (and cached,
   * even if what follows fails) and the part is computed and cached.
   */
  function MakeControllerUri(env: Env, c: Caches, app: string, useCache: bool, spec: string, cfg: UrlConfig): (out: Linked)
    ensures useCache && (app, spec) in c.controllerUri ==> out == Linked(Ok(c.controllerUri[(app, spec)]), c)
    ensures !(useCache && (app, spec) in c.controllerUri) ==>
              out.uri == ControllerUri(cfg, if app in c.alias then c.alias[app] else AliasTable(env.current.router), spec)
    ensures out.caches.urlConfig == c.urlConfig && out.caches.urlLinkBase == c.urlLinkBase
    ensures out.uri.Ok? ==> (app, spec) in out.caches.controllerUri && out.caches.controllerUri[(app, spec)] == out.uri.value
    ensures forall k | k in c.controllerUri && k != (app, spec) ::
              k in out.caches.controllerUri && out.caches.controllerUri[k] == c.controllerUri[k]
  {
    if useCache && (app, spec) in c.controllerUri then Linked(Ok(c.controllerUri[(app, spec)]), c)
    else
      var c1 := ParseControllerAlias(env, c, app);
      var r := ControllerUri(cfg, c1.alias[app], spec);
      match r
      case Err(_) => Linked(r, c1)
      case Ok(u) => Linked(r, c1.(controllerUri := c1.controllerUri[(app, spec) := u]))
  }

  // ================================================================ parameter part

  /** The parameter text of each grammar, before encryption and without its leading separator. */
  function ParamsBody(a: Arr<string>, cfg: UrlConfig): string {
    if cfg.urlType == 1 || cfg.urlType == 5 then PositionalSegment(a, cfg.dot)
    else if cfg.urlType == 2 then UrlEncode.BuildQuery(a)
    else if cfg.urlType == 3 || cfg.urlType == 4 then KeyedSegment(a, cfg.dot)
    else ""
  }

  /**
   * `makeParams`: the grammar's parameter text, passed through the URL cipher
   * when encryption is asked for, after a separator: `"?"` for type 2 (always
   * written), `dot` otherwise (written only when the caller asks for it). An
   * empty array yields no text, and then type 2 gets no special treatment.
   */
  function MakeParams(a: Arr<string>, cfg: UrlConfig, encrypt: bool, cipher: string -> string, addPrefix: bool): string {
    var query := a != [] && cfg.urlType == 2;
    var sep := if query then "?" else cfg.dot;
    var body := if a == [] then "" else if encrypt then cipher(ParamsBody(a, cfg)) else ParamsBody(a, cfg);
    if addPrefix || query then sep + body else body
  }

  /**
   * Encryption applies to the complete parameter text and the separator is
   * attached afterwards, outside the ciphertext; for type 2 the separator is
   * `"?"` whatever the caller asked.
   */
  lemma EncryptAfterBuild(a: Arr<string>, cfg: UrlConfig, cipher: string -> string, addPrefix: bool)
    requires a != []
    ensures var sep := if cfg.urlType == 2 then "?" else if addPrefix then cfg.dot else "";
            var body := ParamsBody(a, cfg);
            && MakeParams(a, cfg, false, cipher, addPrefix) == sep + body
            && MakeParams(a, cfg, true, cipher, addPrefix) == sep + cipher(body)
  {
    var body := ParamsBody(a, cfg);
    if !addPrefix && cfg.urlType != 2 {
      assert "" + body == body;
      assert "" + cipher(body) == cipher(body);
    }
  }

  // ================================================================ links

  /**
   * The `url` section link building uses for `app`: the cached one (and then
   * the controller cache may be used), or a fresh one, cached even if what
   * follows fails. It is another application's section only when the caller
   * asks for that check and the names differ.
   */
  function LoadUrlConfig(env: Env, c: Caches, app: string, checkAppName: bool): (out: (Result<(UrlConfig, bool), LinkError>, Caches))
    ensures app in c.urlConfig ==> out == (Ok((c.urlConfig[app], true)), c)
    ensures out.0.Ok? ==> app in out.1.urlConfig && out.1.urlConfig[app] == out.0.value.0
    ensures out.0.Ok? ==> (out.0.value.1 <==> app in c.urlConfig)
    ensures app !in c.urlConfig && checkAppName && app != env.current.name ==>
              out.0 == if app in env.initFiles then Ok((env.initFiles[app], false)) else Err(MissingAppConfig(app))
    ensures app !in c.urlConfig && !(checkAppName && app != env.current.name) ==> out.0 == Ok((env.current.url, false))
    ensures out.1.controllerUri == c.controllerUri && out.1.alias == c.alias && out.1.urlLinkBase == c.urlLinkBase
  {
    if app in c.urlConfig then (Ok((c.urlConfig[app], true)), c)
    else if checkAppName && app != env.current.name then
      if app in env.initFiles then
        (Ok((env.initFiles[app], false)), c.(urlConfig := c.urlConfig[app := env.initFiles[app]]))
      else (Err(MissingAppConfig(app)), c)
    else (Ok((env.current.url, false)), c.(urlConfig := c.urlConfig[app := env.current.url]))
  }

  /**
   * How `makeUri` places the controller part `u`, the parameter part `p` and
   * `ext`: with a truthy `ext`, type 2 writes it right after a non-empty
   * controller part (before the query), types 1, 3, 4 and 5 write it last,
   * and any other type writes nothing at all.
   */
  function Assemble(cfg: UrlConfig, u: string, p: string): (r: string)
    ensures !Truthy(cfg.ext) ==> r == u + p
    ensures Truthy(cfg.ext) && cfg.urlType == 2 ==> r == if u != "" then u + cfg.ext + p else p
    ensures Truthy(cfg.ext) && cfg.urlType in {1, 3, 4, 5} ==> r == u + p + cfg.ext
  {
    if !Truthy(cfg.ext) then u + p
    else if cfg.urlType == 2 then (if u != "" then u + cfg.ext else "") + p
    else if cfg.urlType == 1 || cfg.urlType == 3 || cfg.urlType == 4 || cfg.urlType == 5 then u + p + cfg.ext
    else ""
  }

  /** The parameter part for a controller part `u`; a non-empty scalar is not an array and is refused. */
  function ParamsPart(params: Params, cfg: UrlConfig, encrypt: bool, cipher: string -> string, u: string): (r: Result<string, LinkError>)
    ensures EmptyParams(params) ==> r == Ok("")
    ensures r.Err? <==> !EmptyParams(params) && !params.ArrayParams?
    ensures r.Ok? && params.ArrayParams? && params.a != [] && (u != "" || cfg.urlType == 2) ==>
              r.value == (if cfg.urlType == 2 then "?" else cfg.dot) + (if encrypt then cipher(ParamsBody(params.a, cfg)) else ParamsBody(params.a, cfg))
    ensures r.Ok? && params.ArrayParams? && params.a != [] && u == "" && cfg.urlType != 2 ==>
              r.value == if encrypt then cipher(ParamsBody(params.a, cfg)) else ParamsBody(params.a, cfg)
  {
    if EmptyParams(params) then Ok("")
    else match params
      case ArrayParams(a) => Ok(MakeParams(a, cfg, encrypt, cipher, u != ""))
      case _ => Err(ParamsNotArray)
  }

  /** A link computed afresh under `cfg` and alias table `table`, with no cache involved. */
  function BuildUri(cfg: UrlConfig, table: Arr<string>, spec: string, params: Params,
                    encrypt: bool, cipher: string -> string): Result<string, LinkError> {
    match ControllerUri(cfg, table, spec)
    case Err(e) => Err(e)
    case Ok(u) =>
      match ParamsPart(params, cfg, encrypt, cipher, u)
      case Err(e) => Err(e)
      case Ok(p) => Ok(Assemble(cfg, u, p))
  }

  /**
   * `makeUri($app, $check, $spec, $params, $encrypt)`: the `url` section, the
   * controller part (from the cache only when the section came from the
   * cache), the parameter part and `ext`. The caches keep what was stored
   * before a failure.
   */
  function MakeUri(env: Env, c: Caches, app: string, checkAppName: bool, spec: string, params: Params,
                   encrypt: bool, cipher: string -> string): (out: Linked)
    ensures out.caches.urlLinkBase == c.urlLinkBase
    ensures app in c.urlConfig ==> out.caches.urlConfig == c.urlConfig
    ensures out.uri.Ok? ==> app in out.caches.urlConfig && (app, spec) in out.caches.controllerUri
    ensures forall k | k in c.controllerUri && k != (app, spec) ::
              k in out.caches.controllerUri && out.caches.controllerUri[k] == c.controllerUri[k]
  {
    var (loaded, c1) := LoadUrlConfig(env, c, app, checkAppName);
    match loaded
    case Err(e) => Linked(Err(e), c1)
    case Ok((cfg, useCache)) =>
      var ctl := MakeControllerUri(env, c1, app, useCache, spec, cfg);
      match ctl.uri
      case Err(_) => ctl
      case Ok(u) =>
        match ParamsPart(params, cfg, encrypt, cipher, u)
        case Err(e) => Linked(Err(e), ctl.caches)
        case Ok(p) => Linked(Ok(Assemble(cfg, u, p)), ctl.caches)
  }

  // ================================================================ base links

  /** `rtrim($link, '/') . '/'`: the base link with exactly one trailing '/'. */
  function NormalizeBase(link: string): (r: string)
    ensures |r| >= 1 && r[|r| - 1] == '/'
    ensures |r| >= 2 ==> r[|r| - 2] != '/'
    ensures r[..|r| - 1] == RTrim(link, "/")
  {
    var t := RTrim(link, "/");
    assert t == "" || t[|t| - 1] != '/';
    t + "/"
  }

  /** Normalising a base link twice changes nothing. */
  lemma NormalizeBaseIdempotent(link: string)
    ensures NormalizeBase(NormalizeBase(link)) == NormalizeBase(link)
  {
    var t := RTrim(link, "/");
    if t == "" {
      assert RTrim("/", "/") == RTrim("", "/");
    } else {
      RTrimSuffix(t, "/", "/");
    }
  }

  /** The per-instance base link of a `View`: unset until `setLinkBase` or `getLinkBase`. */
  datatype ViewState = ViewState(linkBase: Option<string>, caches: Caches)

  /** `setLinkBase($link)`. */
  function SetLinkBase(v: ViewState, link: string): (v': ViewState)
    ensures v'.linkBase == Some(NormalizeBase(link)) && v'.caches == v.caches
  {
    v.(linkBase := Some(NormalizeBase(link)))
  }

  /** `getLinkBase()`: the base link set on this view, defaulting to the normalised `full_request`. */
  function GetLinkBase(env: Env, v: ViewState): (out: (string, ViewState))
    ensures out.1.linkBase == Some(out.0) && out.1.caches == v.caches
    ensures v.linkBase.Some? ==> out == (v.linkBase.value, v)
    ensures v.linkBase.None? ==> out.0 == NormalizeBase(env.current.url.fullRequest)
  {
    match v.linkBase
    case Some(b) => (b, v)
    case None =>
      var v' := SetLinkBase(v, env.current.url.fullRequest);
      (v'.linkBase.value, v')
  }

  /** A link-building step of a view: its outcome and the view state after it. */
  datatype Viewed = Viewed(uri: Result<string, LinkError>, view: ViewState)

  /**
   * `url($spec, $params, $encrypt)`: the base link captured on the first call
   * of the view class (later `setLinkBase` calls do not reach it), alone when both
   * spec and params are null, else followed by the running app's link.
   */
  function Url(env: Env, v: ViewState, spec: Option<string>, params: Params, encrypt: bool, cipher: string -> string): (out: Viewed)
    ensures out.view.caches.urlLinkBase.Some?
    ensures spec.None? && params.NoParams? ==> out.uri == Ok(out.view.caches.urlLinkBase.value)
    ensures v.caches.urlLinkBase.Some? ==> out.view.caches.urlLinkBase == v.caches.urlLinkBase
    ensures out.uri.Ok? ==>
              var b := out.view.caches.urlLinkBase.value; |out.uri.value| >= |b| && out.uri.value[..|b|] == b
    ensures v.caches.urlLinkBase.None? ==> out.view.caches.urlLinkBase == Some(GetLinkBase(env, v).0)
    ensures !(spec.None? && params.NoParams?) ==>
              var b := out.view.caches.urlLinkBase.value;
              var m := MakeUri(env, v.caches.(urlLinkBase := Some(b)), env.current.name, false, spec.GetOr(""), params, encrypt, cipher);
              && out.uri == (if m.uri.Ok? then Ok(b + m.uri.value) else m.uri)
              && out.view.caches == m.caches
  {
    var (base, v1) :=
      match v.caches.urlLinkBase
      case Some(b) => (b, v)
      case None =>
        var (b, v0) := GetLinkBase(env, v);
        (b, v0.(caches := v0.caches.(urlLinkBase := Some(b))));
    if spec.None? && params.NoParams? then Viewed(Ok(base), v1)
    else
      var out := MakeUri(env, v1.caches, env.current.name, false, spec.GetOr(""), params, encrypt, cipher);
      var r := match out.uri case Ok(u) => Ok(base + u) case Err(e) => Err(e);
      Viewed(r, v1.(caches := out.caches))
  }

  /** Once `url` has captured its base link, a later `setLinkBase` on the view changes no link `url` gives. */
  lemma UrlIgnoresLaterSetLinkBase(env: Env, v: ViewState, link: string, spec: Option<string>, params: Params,
                                   encrypt: bool, cipher: string -> string)
    requires v.caches.urlLinkBase.Some?
    ensures Url(env, SetLinkBase(v, link), spec, params, encrypt, cipher).uri == Url(env, v, spec, params, encrypt, cipher).uri
  {
  }

  /** On a fresh view, `url` with null spec and params is the normalised `full_request`. */
  lemma UrlFreshBase(env: Env, v: ViewState, encrypt: bool, cipher: string -> string)
    requires v.linkBase.None? && v.caches.urlLinkBase.None?
    ensures Url(env, v, None, NoParams, encrypt, cipher).uri == Ok(NormalizeBase(env.current.url.fullRequest))
  {
  }

  /**
   * `appUrl($base, $app, $spec, $params, $encrypt)`: a link into application
   * `app` (whose `url` section is read from its own `init.php` when it is not
   * the running app) under a normalised base link.
   */
  function AppUrl(env: Env, c: Caches, base: string, app: string, spec: Option<string>, params: Params,
                  encrypt: bool, cipher: string -> string): (out: Linked)
    ensures out.uri.Ok? ==> var b := NormalizeBase(base); |out.uri.value| >= |b| && out.uri.value[..|b|] == b
    ensures spec.None? && params.NoParams? ==> out == Linked(Ok(NormalizeBase(base)), c)
    ensures !(spec.None? && params.NoParams?) ==>
              var m := MakeUri(env, c, app, true, spec.GetOr(""), params, encrypt, cipher);
              && out.uri == (if m.uri.Ok? then Ok(NormalizeBase(base) + m.uri.value) else m.uri)
              && out.caches == m.caches
  {
    var b := NormalizeBase(base);
    if spec.None? && params.NoParams? then Linked(Ok(b), c)
    else
      var out := MakeUri(env, c, app, true, spec.GetOr(""), params, encrypt, cipher);
      match out.uri
      case Ok(u) => Linked(Ok(b + u), out.caches)
      case Err(e) => out
  }

  /** `e($data, $key, $default)`: the entry under `key` when it is set and not null, else the default. */
  function E(data: Arr<Value>, key: string, default: Value): Value {
    match Get(data, NormKey(key))
    case Some(x) => if x != Null then x else default
    case None => default
  }

  /**
   * In an array with distinct keys, `e` returns the value stored at the
   * position of the normalised key unless it is null, and the default when
   * the key is absent or its value is null.
   */
  lemma EGet(data: Arr<Value>, key: string, default: Value)
    requires UniqueKeys(data)
    ensures NormKey(key) !in KeysOf(data) ==> E(data, key, default) == default
    ensures forall i | 0 <= i < |data| && data[i].0 == NormKey(key) ::
              E(data, key, default) == (if data[i].1 == Null then default else data[i].1)
  {
    GetSome(data, NormKey(key));
    forall i | 0 <= i < |data| && data[i].0 == NormKey(key)
      ensures E(data, key, default) == (if data[i].1 == Null then default else data[i].1)
    {
      GetAt(data, i);
    }
  }
}
