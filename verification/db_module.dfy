/**
 * How a `Module` picks its database: `parseModelParams` resolves a
 * `"type:key"` spec against the database configuration file (a map from
 * driver type to named connection configurations), falling back to the
 * `default` entry and then to `mysql:db`; `getModuleConfigFile` names that
 * file.
 */
module DbModule {
  import opened Wrappers
  import opened PhpString
  import opened PhpArray
  import opened PhpValue

  /** What `parseModelParams` returns: exactly a driver type and its connection configuration. */
  datatype ModelParams = ModelParams(modelType: string, modelConfig: Value)

  datatype DbError =
    | Unconfigured(modelType: string, key: Option<string>)   // an explicit spec with no (or an empty) configuration
    | BadDefault                                             // a `default` entry that is not a `type => key` array
    | NoDefault                                              // neither a spec, nor `default`, nor `mysql:db`

  /**
   * `CrossArray::get($name, $key)` on the database configuration: the section
   * `name`; with a truthy key, the entry `key` of that section. Whatever is
   * missing (or null) reads as null.
   */
  function ConfigGet(db: Arr<Value>, name: string, key: Option<string>): (v: Value)
    ensures Get(db, NormKey(name)).None? ==> v == Null
    ensures Get(db, NormKey(name)).Some? && (key.None? || !Truthy(key.value)) ==> v == Get(db, NormKey(name)).value
  {
    match Get(db, NormKey(name))
    case None => Null
    case Some(section) =>
      if key.None? || !Truthy(key.value) then section
      else if section.Array? then Get(section.a, NormKey(key.value)).GetOr(Null)
      else Null
  }

  /**
   * `parseModelParams($spec)`. A truthy spec is split at its first ':' into
   * type and key and must name a non-empty configuration. Without a spec, a
   * truthy `default` array supplies the type (its first key) and the key (its
   * first value), and what that names is taken unchecked. Without either, a
   * truthy `mysql:db` is used; otherwise there is no database.
   */
  function ParseModelParams(db: Arr<Value>, spec: string): (r: Result<ModelParams, DbError>)
    ensures Truthy(spec) ==>
              var (t, k) := SplitSpec(spec);
              && (r.Ok? <==> !EmptyValue(ConfigGet(db, t, k)))
              && (r.Ok? ==> r.value == ModelParams(t, ConfigGet(db, t, k)))
              && (r.Err? ==> r.error == Unconfigured(t, k))
    ensures !Truthy(spec) && EmptyValue(ConfigGet(db, "default", None)) ==>
              && (r.Ok? <==> !EmptyValue(ConfigGet(db, "mysql", Some("db"))))
              && (r.Ok? ==> r.value == ModelParams("mysql", ConfigGet(db, "mysql", Some("db"))))
              && (r.Err? ==> r.error == NoDefault)
  {
    if Truthy(spec) then
      var (t, k) := SplitSpec(spec);
      var cfg := ConfigGet(db, t, k);
      if EmptyValue(cfg) then Err(Unconfigured(t, k)) else Ok(ModelParams(t, cfg))
    else
      var d := ConfigGet(db, "default", None);
      if !EmptyValue(d) then
        if d.Array? then
          var t := KeyString(d.a[0].0);
          match d.a[0].1
          case Null => Ok(ModelParams(t, ConfigGet(db, t, None)))
          case Scalar(s) => Ok(ModelParams(t, ConfigGet(db, t, Some(s))))
          case Array(_) => Err(BadDefault)
        else Err(BadDefault)
      else
        var m := ConfigGet(db, "mysql", Some("db"));
        if !EmptyValue(m) then Ok(ModelParams("mysql", m)) else Err(NoDefault)
  }

  /**
   * An explicit `type:key` spec selects the configuration stored under `key`
   * in the section `type`, and is refused when that configuration is empty.
   */
  lemma ExplicitSpec(db: Arr<Value>, t: string, k: string, i: nat, j: nat)
    requires FreeOf(t, ":") && FreeOf(k, ":") && Truthy(k)
    requires UniqueKeys(db) && i < |db| && db[i].0 == NormKey(t) && db[i].1.Array?
    requires UniqueKeys(db[i].1.a) && j < |db[i].1.a| && db[i].1.a[j].0 == NormKey(k)
    ensures var x := db[i].1.a[j].1;
            ParseModelParams(db, t + ":" + k) == if EmptyValue(x) then Err(Unconfigured(t, Some(k))) else Ok(ModelParams(t, x))
  {
    SplitSpecJoin(t, k);
    GetAt(db, i);
    GetAt(db[i].1.a, j);
    var s := t + ":" + k;
    assert s[|t|] == ':';
  }

  /** A spec without ':' selects the whole section of that type. */
  lemma SpecWithoutKey(db: Arr<Value>, t: string, i: nat)
    requires FreeOf(t, ":") && Truthy(t)
    requires UniqueKeys(db) && i < |db| && db[i].0 == NormKey(t)
    ensures ParseModelParams(db, t) == if EmptyValue(db[i].1) then Err(Unconfigured(t, None)) else Ok(ModelParams(t, db[i].1))
  {
    SplitSpecJoin(t, "");
    GetAt(db, i);
  }

  /**
   * Without a spec, a `default` entry whose first pair is `type => key` selects
   * `type` and what `CrossArray::get(type, key)` gives, even when that is
   * empty: unlike an explicit spec, the default is not checked.
   */
  lemma DefaultFirstEntry(db: Arr<Value>, i: nat, t: string, k: string, rest: Arr<Value>)
    requires UniqueKeys(db) && i < |db| && db[i].0 == Str("default")
    requires db[i].1 == Array([(Str(t), Scalar(k))] + rest)
    ensures ParseModelParams(db, "") == Ok(ModelParams(t, ConfigGet(db, t, Some(k))))
  {
    assert NormKey("default") == Str("default") by {
      assert !IsIntKeyString("default") by {
        assert "default"[0] == 'd';
      }
    }
    GetAt(db, i);
  }

  /** Without a spec and with no `default` entry, the result is `mysql:db` or nothing. */
  lemma FallbackToMysql(db: Arr<Value>)
    requires Get(db, Str("default")).None?
    ensures var m := ConfigGet(db, "mysql", Some("db"));
            ParseModelParams(db, "") == if EmptyValue(m) then Err(NoDefault) else Ok(ModelParams("mysql", m))
  {
    assert NormKey("default") == Str("default") by {
      assert !IsIntKeyString("default") by {
        assert "default"[0] == 'd';
      }
    }
  }

  /**
   * `getModuleConfigFile()`: the file name stored on the module, else
   * `sys.db_config`, else `db.config.php`; the choice is stored. The result
   * pairs the file name with the stored name afterwards.
   */
  function ModuleConfigFile(stored: string, sysDbConfig: string): (r: (string, string))
    ensures Truthy(r.0) && r.1 == r.0
    ensures Truthy(stored) ==> r.0 == stored
    ensures !Truthy(stored) && Truthy(sysDbConfig) ==> r.0 == sysDbConfig
    ensures !Truthy(stored) && !Truthy(sysDbConfig) ==> r.0 == "db.config.php"
  {
    if Truthy(stored) then (stored, stored)
    else
      var f := if Truthy(sysDbConfig) then sysDbConfig else "db.config.php";
      (f, f)
  }

  /** Once chosen, the file name no longer follows `sys.db_config`. */
  lemma ModuleConfigFileStable(stored: string, sys1: string, sys2: string)
    ensures var first := ModuleConfigFile(stored, sys1);
            ModuleConfigFile(first.1, sys2) == first
  {
  }
}
