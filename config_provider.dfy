/** `ConfigProvider`: the plugin's `config.yml` read into a map from dotted
    path to leaf value, with typed getters and a type-preserving edit. */
module Config {
  import opened Common

  /** A value of the YAML configuration, by the Java class that
      `FileConfiguration.get` returns for it. A section stands for a node
      with children; its children appear under their own dotted paths. */
  datatype Value =
    | BoolV(b: bool)             // java.lang.Boolean
    | IntV(i: int)               // java.lang.Integer
    | LongV(l: int)              // java.lang.Long
    | DoubleV(d: real)           // java.lang.Double
    | StringV(s: string)         // java.lang.String
    | ListV(items: seq<Value>)   // java.util.ArrayList
    | SectionV                   // org.bukkit.configuration.MemorySection

  /** `getClass().getName()`. */
  function ClassName(v: Value): string
  {
    match v
    case BoolV(_) => "java.lang.Boolean"
    case IntV(_) => "java.lang.Integer"
    case LongV(_) => "java.lang.Long"
    case DoubleV(_) => "java.lang.Double"
    case StringV(_) => "java.lang.String"
    case ListV(_) => "java.util.ArrayList"
    case SectionV => "org.bukkit.configuration.MemorySection"
  }

  /** Values have the same class exactly when they have the same constructor. */
  lemma ClassNameIsConstructor(a: Value, b: Value)
    ensures ClassName(a) == ClassName(b) <==>
      || (a.BoolV? && b.BoolV?) || (a.IntV? && b.IntV?) || (a.LongV? && b.LongV?)
      || (a.DoubleV? && b.DoubleV?) || (a.StringV? && b.StringV?) || (a.ListV? && b.ListV?)
      || (a.SectionV? && b.SectionV?)
  {
  }

  /** The leaf values of a configuration: every path whose value is not a
      section. */
  function Leaves(file: map<string, Value>): (r: map<string, Value>)
    ensures forall k :: k in r <==> k in file && !file[k].SectionV?
    ensures forall k :: k in r ==> r[k] == file[k]
  {
    map k | k in file && !file[k].SectionV? :: file[k]
  }

  /** The class a typed getter insists on. */
  datatype Kind = BooleanKind | IntegerKind | DoubleKind | StringKind | ListKind

  /** `value instanceof C` for the getter's class. */
  predicate InstanceOf(v: Value, kind: Kind)
  {
    match kind
    case BooleanKind => v.BoolV?
    case IntegerKind => v.IntV?
    case DoubleKind => v.DoubleV?
    case StringKind => v.StringV?
    case ListKind => v.ListV?
  }

  /** The typed getters: a missing path is logged and then fails with a null
      pointer (the exception message reads `value.getClass()` of null); a
      value of another class fails with a `ClassCastException`; otherwise
      the value. */
  function Typed(config: map<string, Value>, path: string, kind: Kind): (r: Result<Value, Fault>)
    ensures path !in config ==> r == Failure(NullPointer)
    ensures r.Success? <==> path in config && InstanceOf(config[path], kind)
    ensures r.Success? ==> r.value == config[path]
    ensures path in config && !InstanceOf(config[path], kind) ==> r == Failure(ClassCast)
  {
    if path !in config then Failure(NullPointer)
    else if !InstanceOf(config[path], kind) then Failure(ClassCast)
    else Success(config[path])
  }

  /** At most one typed getter succeeds on a path. */
  lemma TypedExclusive(config: map<string, Value>, path: string, k1: Kind, k2: Kind)
    requires Typed(config, path, k1).Success? && Typed(config, path, k2).Success?
    ensures k1 == k2
  {
  }

  /** `editConfig(key, newValue)`, on the file configuration and on the map:
      a key the file has no value for is refused, then a null new value
      fails on `getClass()`, then a value of another class is refused;
      otherwise both take the new value. */
  function EditSpec(file: map<string, Value>, config: map<string, Value>, key: string, newValue: Option<Value>): (r: (map<string, Value>, map<string, Value>, Outcome<Fault>))
    ensures r.2.Pass? <==> key in file && newValue.Some? && ClassName(file[key]) == ClassName(newValue.value)
    ensures r.2.Fail? ==> r.0 == file && r.1 == config
    ensures r.2.Pass? ==> r.0 == file[key := newValue.value] && r.1 == config[key := newValue.value]
    ensures key !in file ==> r.2 == Fail(Runtime("The key '" + key + "' is not present in the config.yml file"))
    ensures key in file && newValue.None? ==> r.2 == Fail(NullPointer)
  {
    if key !in file then (file, config, Fail(Runtime("The key '" + key + "' is not present in the config.yml file")))
    else if newValue.None? then (file, config, Fail(NullPointer))
    else if ClassName(file[key]) != ClassName(newValue.value) then
      (file, config, Fail(Runtime("The class of '" + key + "' must be the same as 'class " + ClassName(file[key])
                                  + "', not 'class " + ClassName(newValue.value) + "'")))
    else (file[key := newValue.value], config[key := newValue.value], Pass)
  }

  /** An edit never changes which paths the file has, nor the class of any
      of their values. */
  lemma EditKeepsClasses(file: map<string, Value>, config: map<string, Value>, key: string, newValue: Option<Value>)
    ensures var r := EditSpec(file, config, key, newValue);
      && r.0.Keys == file.Keys
      && forall k :: k in file ==> ClassName(r.0[k]) == ClassName(file[k])
  {
  }

  /** After a successful edit the getters see the new value under the key and
      the old values under every other path; a typed getter that succeeded
      on the key before still succeeds, with the new value. */
  lemma EditThenGet(file: map<string, Value>, config: map<string, Value>, key: string, v: Value, kind: Kind)
    requires EditSpec(file, config, key, Some(v)).2.Pass?
    ensures var c := EditSpec(file, config, key, Some(v)).1;
      && c[key] == v
      && (forall k :: k != key ==> (k in c <==> k in config) && (k in c ==> c[k] == config[k]))
      && (Typed(file, key, kind).Success? ==> Typed(c, key, kind) == Success(v))
  {
    ClassNameIsConstructor(file[key], v);
  }

  /** The configuration of the plugin. */
  class ConfigProvider {
    /** The plugin's `FileConfiguration`, by dotted path. */
    var file: map<string, Value>
    /** The map the getters read. */
    var config: map<string, Value>

    /** `new ConfigProvider(plugin)`: reads the configuration `loaded` (the
        file after `saveDefaultConfig`, `reloadConfig` and `copyDefaults`). */
    constructor(loaded: map<string, Value>)
      ensures file == loaded && config == Leaves(loaded)
    {
      file := map[];
      config := map[];
      new;
      ReadConfig(loaded);
    }

    /** `readConfig()` and `reload()`: the map is rebuilt from the leaf values
        of the configuration, walking its paths in order. */
    method ReadConfig(loaded: map<string, Value>)
      modifies this
      ensures file == loaded && config == Leaves(loaded)
    {
      var leaves := map[];
      var keys := Enumerate(loaded.Keys);
      EnumeratedKeys(keys, loaded.Keys);
      for i := 0 to |keys|
        invariant forall k :: k in leaves <==> k in keys[..i] && !loaded[k].SectionV?
        invariant forall k :: k in leaves ==> leaves[k] == loaded[k]
      {
        var value := loaded[keys[i]];
        if !value.SectionV? {
          leaves := leaves[keys[i] := value];
        }
        assert keys[..i + 1] == keys[..i] + [keys[i]];
      }
      assert keys[..|keys|] == keys;
      forall k
        ensures k in leaves <==> k in Leaves(loaded)
      {
        assert k in keys <==> k in loaded;
      }
      file := loaded;
      config := leaves;
    }

    /** `editConfig(key, newValue)`; writing the file out is not modelled. */
    method EditConfig(key: string, newValue: Option<Value>) returns (r: Outcome<Fault>)
      modifies this
      ensures (file, config, r) == EditSpec(old(file), old(config), key, newValue)
    {
      if key !in file {
        return Fail(Runtime("The key '" + key + "' is not present in the config.yml file"));
      }
      var oldValue := file[key];
      if newValue.None? {
        return Fail(NullPointer);
      }
      if ClassName(oldValue) != ClassName(newValue.value) {
        return Fail(Runtime("The class of '" + key + "' must be the same as 'class " + ClassName(oldValue)
                            + "', not 'class " + ClassName(newValue.value) + "'"));
      }
      config := config[key := newValue.value];
      file := file[key := newValue.value];
      return Pass;
    }

    /** `get(path)`: the value under the path, or null. */
    function Get(path: string): (r: Option<Value>)
      reads this
      ensures r.Some? <==> path in config
      ensures r.Some? ==> r.value == config[path]
    {
      if path in config then Some(config[path]) else None
    }

    /** `pathExist(path)`. */
    function PathExist(path: string): (r: bool)
      reads this
      ensures r <==> Get(path).Some?
    {
      path in config
    }

    /** `getBoolean(path)`. */
    method GetBoolean(path: string) returns (r: Result<bool, Fault>)
      ensures r.Success? <==> Typed(config, path, BooleanKind).Success?
      ensures r.Success? ==> Typed(config, path, BooleanKind).value == BoolV(r.value)
      ensures r.Failure? ==> r.error == Typed(config, path, BooleanKind).error
    {
      var value := Typed(config, path, BooleanKind);
      if value.Failure? {
        return Failure(value.error);
      }
      return Success(value.value.b);
    }

    /** `getInt(path)`. */
    method GetInt(path: string) returns (r: Result<int, Fault>)
      ensures r.Success? <==> Typed(config, path, IntegerKind).Success?
      ensures r.Success? ==> Typed(config, path, IntegerKind).value == IntV(r.value)
      ensures r.Failure? ==> r.error == Typed(config, path, IntegerKind).error
    {
      var value := Typed(config, path, IntegerKind);
      if value.Failure? {
        return Failure(value.error);
      }
      return Success(value.value.i);
    }

    /** `getDouble(path)`. */
    method GetDouble(path: string) returns (r: Result<real, Fault>)
      ensures r.Success? <==> Typed(config, path, DoubleKind).Success?
      ensures r.Success? ==> Typed(config, path, DoubleKind).value == DoubleV(r.value)
      ensures r.Failure? ==> r.error == Typed(config, path, DoubleKind).error
    {
      var value := Typed(config, path, DoubleKind);
      if value.Failure? {
        return Failure(value.error);
      }
      return Success(value.value.d);
    }

    /** `getString(path)`. */
    method GetString(path: string) returns (r: Result<string, Fault>)
      ensures r.Success? <==> Typed(config, path, StringKind).Success?
      ensures r.Success? ==> Typed(config, path, StringKind).value == StringV(r.value)
      ensures r.Failure? ==> r.error == Typed(config, path, StringKind).error
    {
      var value := Typed(config, path, StringKind);
      if value.Failure? {
        return Failure(value.error);
      }
      return Success(value.value.s);
    }

    /** `getStringList(path)`: any list passes; the elements are not checked. */
    method GetStringList(path: string) returns (r: Result<seq<Value>, Fault>)
      ensures r.Success? <==> Typed(config, path, ListKind).Success?
      ensures r.Success? ==> Typed(config, path, ListKind).value == ListV(r.value)
      ensures r.Failure? ==> r.error == Typed(config, path, ListKind).error
    {
      var value := Typed(config, path, ListKind);
      if value.Failure? {
        return Failure(value.error);
      }
      return Success(value.value.items);
    }
  }
}
