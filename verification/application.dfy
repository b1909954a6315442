/**
 * The inbound half of routing in `Application`: a route becomes a
 * controller/action/params descriptor (`getRouter`), the controller and
 * action are accepted or refused against what each controller declares
 * (`initController`), controller- and action-level annotation configuration
 * are merged (`getActionConfig`), and the request parameters are bound per
 * URL grammar and merged with the configured addition parameters
 * (`setParams`).
 */
module Application {
  import opened Wrappers
  import opened PhpString
  import opened PhpArray
  import opened PhpValue
  import opened ParamCodec
  import opened Config

  // ================================================================ getRouter

  /** A route descriptor: controller, action and the parameters as given. */
  datatype Route = Route(controller: string, action: string, params: Params)

  /**
   * What `dispatcher` may be handed as a route: a `Router` object or an array
   * (both read field by field), a `"controller[:action]"` string, or any other
   * value (which yields empty fields).
   */
  datatype RouteSpec =
    | RouteFields(controller: string, action: string, params: Params)
    | RouteString(spec: string)
    | RouteOther

  /**
   * `getRouter($router, $args)`. A string splits at its first ':' only when
   * that ':' is not at position 0 (`strpos` returns 0 there, which is falsy);
   * otherwise the whole string is the controller and the action is `index`.
   * The controller is always `ucfirst`'d; a string route takes `args` as its
   * params.
   */
  function GetRouter(r: RouteSpec, args: Params): (d: Route)
    ensures r.RouteString? ==> d.params == args
    ensures r.RouteString? ==> |d.controller| <= |r.spec| && d.controller == Ucfirst(r.spec[..|d.controller|])
    ensures r.RouteFields? ==> d.params == r.params && d.action == r.action
  {
    match r
    case RouteFields(c, a, p) => Route(Ucfirst(c), a, p)
    case RouteString(s) =>
      (match FindFrom(":", s, 0)
       case Some(j) =>
         if j > 0 then
           var parts := Split(":", s);
           Route(Ucfirst(parts[0]), parts[1], args)
         else Route(Ucfirst(s), "index", args)
       case None => Route(Ucfirst(s), "index", args))
    case RouteOther => Route("", "", ScalarParams(""))
  }

  /**
   * A string route `controller:action` (possibly followed by more
   * ':'-separated pieces, which are ignored) names that controller, upper-cased
   * first letter, and that action.
   */
  lemma GetRouterSplit(controller: string, action: string, tail: string, args: Params)
    requires controller != "" && FreeOf(controller, ":") && FreeOf(action, ":")
    requires tail == "" || tail[0] == ':'
    ensures GetRouter(RouteString(controller + ":" + action + tail), args) == Route(Ucfirst(controller), action, args)
  {
    var s := controller + ":" + action + tail;
    assert s == controller + ":" + (action + tail);
    SplitCons(controller, action + tail, ":");
    if tail == "" {
      assert action + tail == action;
      SplitJoin([action], ":");
    } else {
      assert action + tail == action + ":" + tail[1..];
      SplitCons(action, tail[1..], ":");
    }
    assert MatchAt(s, ":", |controller|) by {
      assert s[|controller|..|controller| + 1] == ":";
    }
    forall j | 0 <= j < |controller|
      ensures !MatchAt(s, ":", j)
    {
      NoMatchInside(controller, ":" + action + tail, ":", j);
    }
  }

  /** A string route without ':', or with ':' in front, is the controller alone with action `index`. */
  lemma GetRouterDefaultAction(s: string, args: Params)
    requires s == "" || s[0] == ':' || FreeOf(s, ":")
    ensures GetRouter(RouteString(s), args) == Route(Ucfirst(s), "index", args)
  {
    if s != "" && s[0] == ':' {
      assert MatchAt(s, ":", 0) by {
        assert s[0..1] == ":";
      }
    }
  }

  // ================================================================ initController

  /** A method as reflection sees it, with the configuration parsed from its doc comment. */
  datatype MethodInfo = MethodInfo(isPublic: bool, isAbstract: bool, annotation: Value)

  /**
   * A controller class as `initController` sees it: whether it is abstract, the
   * configuration parsed from its doc comment (`None` without one), and its
   * methods by lower-cased name (PHP method names ignore case).
   */
  datatype ControllerInfo = ControllerInfo(isAbstract: bool, annotation: Option<Value>, methods: map<string, MethodInfo>)

  datatype InitError =
    | ControllerMissing(controller: string)                    // no controller file
    | ControllerForbidden(controller: string)                  // abstract controller
    | ActionUnresolvable(controller: string, action: string)   // neither the method nor `__call`
    | ActionForbidden(controller: string, action: string)      // the method found is not public, or abstract

  /**
   * The static annotation state `Application` keeps between dispatches:
   * `controller_annotate_config` (initially an empty array) and the parsed
   * configuration of the last accepted action's doc comment.
   */
  datatype Statics = Statics(controllerConfig: Value, actionAnnotation: Value)

  function InitialStatics(): Statics {
    Statics(Array([]), Null)
  }

  /** The outcome of `initController`: the action accepted (`None` when none was checked), and the statics. */
  datatype Initialised = Initialised(outcome: Result<Option<string>, InitError>, statics: Statics)

  /** The method reflection finds for `action`: the method of that name in any case, else `__call`. */
  function Resolve(info: ControllerInfo, action: string): (m: Option<MethodInfo>)
    ensures Lower(action) in info.methods ==> m == Some(info.methods[Lower(action)])
    ensures Lower(action) !in info.methods ==> m == if "__call" in info.methods then Some(info.methods["__call"]) else None
  {
    if Lower(action) in info.methods then Some(info.methods[Lower(action)])
    else if "__call" in info.methods then Some(info.methods["__call"])
    else None
  }

  /** A method `dispatcher` may call. */
  predicate Callable(m: MethodInfo) {
    m.isPublic && !m.isAbstract
  }

  /**
   * `initController($controller, $action)`: refuse a missing controller, then
   * an abstract one; store the controller's annotation configuration (a
   * controller without a doc comment leaves the previous one in place); then,
   * when an action is asked for and is truthy, refuse it if neither the method
   * nor `__call` exists, or if the method found is not public or is abstract,
   * and otherwise store its annotation. The controller annotation stays stored
   * when the action is refused.
   */
  function InitController(table: map<string, ControllerInfo>, controller: string, action: Option<string>, st: Statics): (out: Initialised)
    ensures controller !in table ==> out == Initialised(Err(ControllerMissing(controller)), st)
    ensures controller in table && table[controller].isAbstract ==> out == Initialised(Err(ControllerForbidden(controller)), st)
    ensures out.outcome.Ok? <==>
              && controller in table && !table[controller].isAbstract
              && (action.Some? && Truthy(action.value) ==>
                    Resolve(table[controller], action.value).Some? && Callable(Resolve(table[controller], action.value).value))
    ensures out.outcome.Ok? ==> out.outcome.value == if action.Some? && Truthy(action.value) then action else None
    ensures controller in table && table[controller].annotation.None? ==> out.statics.controllerConfig == st.controllerConfig
    ensures controller in table && !table[controller].isAbstract && table[controller].annotation.Some? ==>
              out.statics.controllerConfig == table[controller].annotation.value
    ensures out.outcome.Ok? && out.outcome.value.Some? ==>
              && controller in table && Resolve(table[controller], out.outcome.value.value).Some?
              && out.statics.actionAnnotation == Resolve(table[controller], out.outcome.value.value).value.annotation
    ensures !(out.outcome.Ok? && out.outcome.value.Some?) ==> out.statics.actionAnnotation == st.actionAnnotation
  {
    if controller !in table then Initialised(Err(ControllerMissing(controller)), st)
    else
      var info := table[controller];
      if info.isAbstract then Initialised(Err(ControllerForbidden(controller)), st)
      else
        var st1 := if info.annotation.Some? then st.(controllerConfig := info.annotation.value) else st;
        if action.None? || !Truthy(action.value) then Initialised(Ok(None), st1)
        else
          match Resolve(info, action.value)
          case None => Initialised(Err(ActionUnresolvable(controller, action.value)), st1)
          case Some(m) =>
            if Callable(m) then Initialised(Ok(Some(action.value)), st1.(actionAnnotation := m.annotation))
            else Initialised(Err(ActionForbidden(controller, action.value)), st1)
  }

  /**
   * A method that exists under the action's name is the one checked, even
   * when it is private and a public `__call` exists: it is refused, not
   * routed to `__call`.
   */
  lemma DeclaredMethodShadowsCall(table: map<string, ControllerInfo>, controller: string, action: string, st: Statics)
    requires controller in table && !table[controller].isAbstract && Truthy(action)
    requires Lower(action) in table[controller].methods
    ensures var out := InitController(table, controller, Some(action), st);
            out.outcome.Ok? <==> Callable(table[controller].methods[Lower(action)])
    ensures var out := InitController(table, controller, Some(action), st);
            out.outcome.Err? ==> out.outcome.error == ActionForbidden(controller, action)
  {
  }

  /** An action the controller does not declare is accepted exactly when a callable `__call` exists. */
  lemma UndeclaredActionUsesCall(table: map<string, ControllerInfo>, controller: string, action: string, st: Statics)
    requires controller in table && !table[controller].isAbstract && Truthy(action)
    requires Lower(action) !in table[controller].methods
    ensures var out := InitController(table, controller, Some(action), st);
            && ("__call" !in table[controller].methods ==> out.outcome == Err(ActionUnresolvable(controller, action)))
            && ("__call" in table[controller].methods ==>
                  (out.outcome.Ok? <==> Callable(table[controller].methods["__call"])))
            && (out.outcome.Ok? ==> out.statics.actionAnnotation == table[controller].methods["__call"].annotation)
  {
  }

  // ================================================================ getActionConfig

  /**
   * `getActionConfig()`: the action's configuration when the stored controller
   * configuration is empty; `array_merge(controller, action)` when both are
   * arrays; otherwise the controller's configuration alone.
   */
  function GetActionConfig(st: Statics): (cfg: Value)
    ensures EmptyValue(st.controllerConfig) ==> cfg == st.actionAnnotation
    ensures !EmptyValue(st.controllerConfig) && !(st.actionAnnotation.Array? && st.controllerConfig.Array?) ==> cfg == st.controllerConfig
  {
    if EmptyValue(st.controllerConfig) then st.actionAnnotation
    else if st.actionAnnotation.Array? && st.controllerConfig.Array? then
      Array(Merge(st.controllerConfig.a, st.actionAnnotation.a))
    else st.controllerConfig
  }

  /**
   * When both configurations are arrays, a string key takes the action's value
   * when the action configures it and the controller's otherwise, and the
   * integer-keyed entries are the controller's then the action's, renumbered.
   */
  lemma ActionConfigMerge(controllerConfig: Arr<Value>, actionConfig: Arr<Value>, k: Key)
    requires controllerConfig != [] && UniqueKeys(controllerConfig) && UniqueKeys(actionConfig) && k.Str?
    ensures var cfg := GetActionConfig(Statics(Array(controllerConfig), Array(actionConfig)));
            && cfg.Array?
            && Get(cfg.a, k) == (if k in KeysOf(actionConfig) then Get(actionConfig, k) else Get(controllerConfig, k))
            && Renumbered(cfg.a)
            && IntValues(cfg.a) == IntValues(controllerConfig) + IntValues(actionConfig)
  {
    MergeStrKey(controllerConfig, actionConfig, k);
    MergeIntKeys(controllerConfig, actionConfig);
  }

  // ================================================================ setParams

  /** The annotation names that are not keys of the addition parameters, in order. */
  function NamesOutside(names: seq<string>, addition: Arr<string>): (r: seq<string>)
    ensures forall x :: x in r <==> x in names && NormKey(x) !in KeysOf(addition)
    ensures |r| <= |names|
  {
    if |names| == 0 then []
    else (if NormKey(names[0]) in KeysOf(addition) then [] else [names[0]]) + NamesOutside(names[1..], addition)
  }

  /** The positions from `k` on whose name the addition parameters do not supply, in increasing order. */
  function KeptPositions(names: seq<string>, addition: Arr<string>, k: nat): (ps: seq<nat>)
    requires k <= |names|
    ensures forall t :: 0 <= t < |ps| ==> k <= ps[t] < |names|
    decreases |names| - k
  {
    if k == |names| then []
    else (if NormKey(names[k]) in KeysOf(addition) then [] else [k]) + KeptPositions(names, addition, k + 1)
  }

  /** `NamesOutside` keeps the names of a concatenation piece by piece, so it keeps their order. */
  lemma {:induction false} NamesOutsideAppend(a: seq<string>, b: seq<string>, addition: Arr<string>)
    ensures NamesOutside(a + b, addition) == NamesOutside(a, addition) + NamesOutside(b, addition)
    decreases |a|
  {
    if |a| > 0 {
      assert (a + b)[0] == a[0];
      assert (a + b)[1..] == a[1..] + b;
      NamesOutsideAppend(a[1..], b, addition);
    } else {
      assert a + b == b;
    }
  }

  /**
   * `NamesOutside` is the subsequence of the names at `KeptPositions`: the
   * kept names in their original order, and every name not supplied kept.
   */
  lemma {:induction false} NamesOutsidePositions(names: seq<string>, addition: Arr<string>, k: nat)
    requires k <= |names|
    ensures var r := NamesOutside(names[k..], addition);
            var ps := KeptPositions(names, addition, k);
            && |ps| == |r|
            && (forall t :: 0 <= t < |ps| ==> names[ps[t]] == r[t])
            && (forall t, u :: 0 <= t < u < |ps| ==> ps[t] < ps[u])
            && (forall p :: k <= p < |names| && NormKey(names[p]) !in KeysOf(addition) ==> p in ps)
    decreases |names| - k
  {
    if k < |names| {
      NamesOutsidePositions(names, addition, k + 1);
      var r' := NamesOutside(names[k + 1..], addition);
      var ps' := KeptPositions(names, addition, k + 1);
      assert names[k..][0] == names[k] && names[k..][1..] == names[k + 1..];
      if NormKey(names[k]) !in KeysOf(addition) {
        assert NamesOutside(names[k..], addition) == [names[k]] + r';
        assert KeptPositions(names, addition, k) == [k] + ps';
        KeptStep(names, k, r', ps');
      } else {
        assert NamesOutside(names[k..], addition) == r';
        assert KeptPositions(names, addition, k) == ps';
      }
    }
  }

  /** One kept name in front: positions and names still line up, in order. */
  lemma KeptStep(names: seq<string>, k: nat, r: seq<string>, ps: seq<nat>)
    requires k < |names| && |ps| == |r|
    requires forall t :: 0 <= t < |ps| ==> k < ps[t] < |names| && names[ps[t]] == r[t]
    requires forall t, u :: 0 <= t < u < |ps| ==> ps[t] < ps[u]
    ensures var r0 := [names[k]] + r;
            var ps0 := [k] + ps;
            && (forall t :: 0 <= t < |ps0| ==> names[ps0[t]] == r0[t])
            && (forall t, u :: 0 <= t < u < |ps0| ==> ps0[t] < ps0[u])
  {
    var r0 := [names[k]] + r;
    var ps0 := [k] + ps;
    assert forall t :: 0 < t < |ps0| ==> ps0[t] == ps[t - 1] && r0[t] == r[t - 1];
  }

  /** Distinct annotation names stay distinct once the supplied ones are dropped. */
  lemma DistinctNamesOutside(names: seq<string>, addition: Arr<string>)
    requires DistinctNames(names)
    ensures DistinctNames(NamesOutside(names, addition))
  {
    var r := NamesOutside(names, addition);
    var ps := KeptPositions(names, addition, 0);
    NamesOutsidePositions(names, addition, 0);
    assert names[0..] == names;
    forall t, u | 0 <= t < u < |r| ensures r[t] != r[u] {
      assert names[ps[t]] == r[t] && names[ps[u]] == r[u] && ps[t] < ps[u];
    }
    forall t | 0 <= t < |r| ensures !IsIntKeyString(r[t]) {
      assert names[ps[t]] == r[t];
    }
  }

  /**
   * The per-grammar binding step of `setParams`. Types 1 and 5 name the
   * positional values after the action's annotation (dropping names the
   * addition parameters already supply, when there are any); types 3 and 4
   * pair the values into keys and values, keeping the raw parameters when
   * pairing gives nothing; other types keep the parameters as they are.
   */
  function BindParams(cfg: UrlConfig, p: Params, names: seq<string>): (r: Params)
    ensures cfg.urlType !in {1, 3, 4, 5} ==> r == p
    ensures (cfg.urlType == 3 || cfg.urlType == 4) && EmptyParams(r) ==> r == p
  {
    if cfg.urlType == 1 || cfg.urlType == 5 then
      var kept := if cfg.additionParams != [] then NamesOutside(names, cfg.additionParams) else names;
      CombineParamsAnnotateConfig(p, kept)
    else if cfg.urlType == 3 || cfg.urlType == 4 then
      var paired := OneDimensionalToAssociativeArray(p);
      if paired == [] then p else ArrayParams(paired)
    else p
  }

  /**
   * `setParams($url_params, $names)`: the bound parameters merged after the
   * addition parameters (`array_merge(addition, params)`); empty bound
   * parameters leave exactly the addition parameters, and a non-empty scalar
   * stays as it is.
   */
  function SetParams(cfg: UrlConfig, p: Params, names: seq<string>): (r: Params)
    ensures EmptyParams(BindParams(cfg, p, names)) ==> r == ArrayParams(cfg.additionParams)
    ensures BindParams(cfg, p, names).ScalarParams? && !EmptyParams(BindParams(cfg, p, names)) ==> r == BindParams(cfg, p, names)
    ensures r.ArrayParams? || (r.ScalarParams? && Truthy(r.s))
  {
    var bound := BindParams(cfg, p, names);
    if EmptyParams(bound) then ArrayParams(cfg.additionParams)
    else match bound
      case ArrayParams(a) => ArrayParams(Merge(cfg.additionParams, a))
      case _ => bound
  }

  /**
   * Bound array parameters win over the addition parameters under a string
   * key, and the integer-keyed values are the addition's then the bound
   * ones', renumbered from 0.
   */
  lemma SetParamsMerge(cfg: UrlConfig, p: Params, names: seq<string>, k: Key)
    requires BindParams(cfg, p, names).ArrayParams? && BindParams(cfg, p, names).a != []
    requires UniqueKeys(cfg.additionParams) && UniqueKeys(BindParams(cfg, p, names).a) && k.Str?
    ensures var b := BindParams(cfg, p, names).a;
            var r := SetParams(cfg, p, names);
            && r.ArrayParams?
            && Get(r.a, k) == (if k in KeysOf(b) then Get(b, k) else Get(cfg.additionParams, k))
            && Renumbered(r.a)
            && IntValues(r.a) == IntValues(cfg.additionParams) + IntValues(b)
  {
    var b := BindParams(cfg, p, names).a;
    MergeStrKey(cfg.additionParams, b, k);
    MergeIntKeys(cfg.additionParams, b);
  }

  /**
   * Types 1 and 5 without addition parameters: the first values take the
   * annotation names in order, and values beyond the names follow as a list
   * keyed 0, 1, 2, ...
   */
  lemma SetParamsPositional(cfg: UrlConfig, values: seq<string>, names: seq<string>)
    requires cfg.urlType == 1 || cfg.urlType == 5
    requires cfg.additionParams == [] && DistinctNames(names) && |names| >= 1 && |values| >= 1
    ensures var m := if |names| < |values| then |names| else |values|;
            SetParams(cfg, ArrayParams(ListOf(values)), names)
              == ArrayParams(Zip(names[..m], values[..m]) + ListOf(values[m..]))
  {
    var m := if |names| < |values| then |names| else |values|;
    var z := Zip(names[..m], values[..m]);
    CombineList(values, names);
    assert UniqueKeys(z) by {
      forall i, j | 0 <= i < j < |z| ensures z[i].0 != z[j].0 {
        assert z[i].0 == Str(names[i]) && z[j].0 == Str(names[j]);
      }
    }
    MergeEmptyStrThenList(z, values[m..]);
    assert (z + ListOf(values[m..]))[0] == z[0];
  }

  /**
   * Types 1 and 5 with addition parameters: the annotation names the addition
   * parameters supply are skipped, so the first values take the remaining
   * names in order and values beyond them follow as a list keyed 0, 1, 2, ...
   */
  lemma BindSkipsSuppliedNames(cfg: UrlConfig, values: seq<string>, names: seq<string>)
    requires cfg.urlType == 1 || cfg.urlType == 5
    requires cfg.additionParams != [] && DistinctNames(names)
    ensures var kept := NamesOutside(names, cfg.additionParams);
            var m := if |kept| < |values| then |kept| else |values|;
            BindParams(cfg, ArrayParams(ListOf(values)), names)
              == ArrayParams(Zip(kept[..m], values[..m]) + ListOf(values[m..]))
  {
    var kept := NamesOutside(names, cfg.additionParams);
    var m := if |kept| < |values| then |kept| else |values|;
    if kept == [] || values == [] {
      assert m == 0 && values[m..] == values;
      assert Zip(kept[..m], values[..m]) == [];
      assert Zip(kept[..m], values[..m]) + ListOf(values[m..]) == ListOf(values);
    } else {
      DistinctNamesOutside(names, cfg.additionParams);
      CombineList(values, kept);
    }
  }

  /**
   * The `setParams` outcome of the binding above: each remaining name holds
   * its value over the addition parameters, every other string key keeps the
   * addition's value, and the integer-keyed values are the addition's then
   * the leftover values, renumbered from 0.
   */
  lemma SetParamsSkipsSuppliedNames(cfg: UrlConfig, values: seq<string>, names: seq<string>)
    requires cfg.urlType == 1 || cfg.urlType == 5
    requires cfg.additionParams != [] && UniqueKeys(cfg.additionParams) && DistinctNames(names) && |values| >= 1
    ensures var kept := NamesOutside(names, cfg.additionParams);
            var m := if |kept| < |values| then |kept| else |values|;
            var r := SetParams(cfg, ArrayParams(ListOf(values)), names);
            && r.ArrayParams?
            && (forall i :: 0 <= i < m ==> Get(r.a, Str(kept[i])) == Some(values[i]))
            && (forall s :: Str(s) !in KeysOf(Zip(kept[..m], values[..m])) ==> Get(r.a, Str(s)) == Get(cfg.additionParams, Str(s)))
            && Renumbered(r.a)
            && IntValues(r.a) == IntValues(cfg.additionParams) + values[m..]
  {
    var kept := NamesOutside(names, cfg.additionParams);
    var m := if |kept| < |values| then |kept| else |values|;
    var b := Zip(kept[..m], values[..m]) + ListOf(values[m..]);
    SkippedBound(cfg, values, names);
    MergeIntKeys(cfg.additionParams, b);
    forall i | 0 <= i < m
      ensures Get(Merge(cfg.additionParams, b), Str(kept[i])) == Some(values[i])
    {
      MergeStrKey(cfg.additionParams, b, Str(kept[i]));
      GetSome(b, Str(kept[i]));
    }
    forall s | Str(s) !in KeysOf(Zip(kept[..m], values[..m]))
      ensures Get(Merge(cfg.additionParams, b), Str(s)) == Get(cfg.additionParams, Str(s))
    {
      MergeStrKey(cfg.additionParams, b, Str(s));
      StrKeyNotInList(Zip(kept[..m], values[..m]), values[m..], s);
    }
  }

  /** The bound array behind the lemma above: its keys are unique, the kept names find their values, and its list part is the leftover values. */
  lemma SkippedBound(cfg: UrlConfig, values: seq<string>, names: seq<string>)
    requires cfg.urlType == 1 || cfg.urlType == 5
    requires cfg.additionParams != [] && DistinctNames(names) && |values| >= 1
    ensures var kept := NamesOutside(names, cfg.additionParams);
            var m := if |kept| < |values| then |kept| else |values|;
            var b := Zip(kept[..m], values[..m]) + ListOf(values[m..]);
            && SetParams(cfg, ArrayParams(ListOf(values)), names) == ArrayParams(Merge(cfg.additionParams, b))
            && UniqueKeys(b)
            && IntValues(b) == values[m..]
            && (forall i :: 0 <= i < m ==> Get(b, Str(kept[i])) == Some(values[i]))
  {
    var kept := NamesOutside(names, cfg.additionParams);
    var m := if |kept| < |values| then |kept| else |values|;
    var b := Zip(kept[..m], values[..m]) + ListOf(values[m..]);
    BindSkipsSuppliedNames(cfg, values, names);
    DistinctNamesOutside(names, cfg.additionParams);
    ZipThenListFacts(kept, values, m);
    assert b != [] by {
      assert |b| == m + |values[m..]|;
    }
  }

  /**
   * Round trip of types 3 and 4 through the request: the pieces of the
   * parameter segment link building writes, bound by `setParams` without
   * addition parameters, give back the original string-keyed parameters.
   */
  lemma KeyedRequestRoundTrip(cfg: UrlConfig, a: Arr<string>, names: seq<string>)
    requires cfg.urlType == 3 || cfg.urlType == 4
    requires cfg.additionParams == [] && a != []
    requires KeyedSerializable(a, cfg.dot) && forall i :: 0 <= i < |a| ==> a[i].0.Str?
    ensures Explode(cfg.dot, KeyedSegment(a, cfg.dot)).Some?
    ensures SetParams(cfg, ArrayParams(ListOf(Explode(cfg.dot, KeyedSegment(a, cfg.dot)).value)), names) == ArrayParams(a)
  {
    KeyedRoundTrip(a, cfg.dot);
    MergeEmptyStrThenList(a, []);
    assert a + ListOf<string>([]) == a;
  }

  /** The `testAnnotate` case: values 1, 2, 3 under the annotation names a, b, c. */
  lemma AnnotateExample(cfg: UrlConfig)
    requires cfg.urlType == 1 && cfg.additionParams == []
    ensures SetParams(cfg, ArrayParams(ListOf(["1", "2", "3"])), ["a", "b", "c"])
              == ArrayParams([(Str("a"), "1"), (Str("b"), "2"), (Str("c"), "3")])
  {
    var names := ["a", "b", "c"];
    assert !IsIntKeyString("a") && !IsIntKeyString("b") && !IsIntKeyString("c");
    assert DistinctNames(names);
    SetParamsPositional(cfg, ["1", "2", "3"], names);
    assert ListOf(["1", "2", "3"][3..]) == [];
    assert Zip(names[..3], ["1", "2", "3"][..3]) == [(Str("a"), "1"), (Str("b"), "2"), (Str("c"), "3")];
  }

  // ================================================================ dispatcher

  /** What `dispatcher` has settled before it instantiates the controller. */
  datatype Request = Request(controller: string, action: Option<string>, actionConfig: Value, params: Params)

  datatype Dispatched = Dispatched(outcome: Result<Request, InitError>, statics: Statics)

  /** The annotation names of the action configuration's `params` entry, when it is an array. */
  function ParamNames(cfg: Value): (names: seq<string>)
    ensures cfg.Array? && Get(cfg.a, Str("params")).Some? && Get(cfg.a, Str("params")).value.Array? ==>
              names == ScalarValues(Get(cfg.a, Str("params")).value.a)
    ensures !cfg.Array? ==> names == []
  {
    if cfg.Array? then
      match Get(cfg.a, Str("params"))
      case Some(v) => if v.Array? then ScalarValues(v.a) else []
      case None => []
    else []
  }

  /**
   * The part of `dispatcher($router, $args, $run_controller)` that decides the
   * request: the route, the controller and (when the controller is to be run)
   * action check, the merged action configuration, and the parameter binding
   * under the action configuration's `params` names.
   */
  function Dispatch(table: map<string, ControllerInfo>, cfg: UrlConfig, st: Statics,
                    router: RouteSpec, args: Params, runController: bool): (out: Dispatched)
    ensures out.outcome.Ok? ==> out.outcome.value.controller in table && !table[out.outcome.value.controller].isAbstract
    ensures out.outcome.Ok? ==> out.outcome.value.actionConfig == GetActionConfig(out.statics)
    ensures !runController && out.outcome.Ok? ==> out.outcome.value.action.None?
    ensures var route := GetRouter(router, args);
            var init := InitController(table, route.controller, if runController then Some(route.action) else None, st);
            && out.statics == init.statics
            && (init.outcome.Err? ==> out.outcome == Err(init.outcome.error))
            && (init.outcome.Ok? ==>
                  var ac := GetActionConfig(init.statics);
                  out.outcome == Ok(Request(route.controller, init.outcome.value, ac, SetParams(cfg, route.params, ParamNames(ac)))))
  {
    var route := GetRouter(router, args);
    var init := InitController(table, route.controller, if runController then Some(route.action) else None, st);
    match init.outcome
    case Err(e) => Dispatched(Err(e), init.statics)
    case Ok(action) =>
      var ac := GetActionConfig(init.statics);
      Dispatched(Ok(Request(route.controller, action, ac, SetParams(cfg, route.params, ParamNames(ac)))), init.statics)
  }

  /**
   * A controller without a doc comment does not reset the stored controller
   * configuration: the next dispatch to it merges the configuration of the
   * last annotated controller into its action configuration.
   */
  lemma ControllerConfigCarriesOver(table: map<string, ControllerInfo>, cfg: UrlConfig, st: Statics,
                                    router: RouteSpec, args: Params, runController: bool)
    requires GetRouter(router, args).controller in table
    requires table[GetRouter(router, args).controller].annotation.None?
    ensures Dispatch(table, cfg, st, router, args, runController).statics.controllerConfig == st.controllerConfig
  {
  }
}
