/** The resolver object: bound to one record and one field name, with a cache
    of the configuration it has built for that name. Its queries are proved
    to compute what the functions of `Resolution` describe, and its cache to
    hold only what a fresh computation would give. */
module Resolver {
  import opened Php
  import opened Host
  import opened Config
  import opened Scans
  import opened Resolution

  /** The `|` expansion of `getConfigData()`: every top-level string holding
      `|` and every such string one level down becomes the list of its
      pieces, each in place. */
  method ExpandPipes(merged: seq<Entry>) returns (data: seq<Entry>)
    ensures data == Normalise(merged)
  {
    data := merged;
    var i := 0;
    while i < |merged|
      invariant 0 <= i <= |merged| && |data| == |merged|
      invariant forall k | 0 <= k < i :: data[k] == Entry(merged[k].key, NormaliseValue(merged[k].val))
      invariant forall k | i <= k < |merged| :: data[k] == merged[k]
    {
      var value := merged[i].val;
      if value.Arr? {
        var sub := ExpandPipesOneLevel(value.entries);
        data := data[i := Entry(merged[i].key, Arr(sub))];
      } else if value.Str? && '|' in value.s {
        data := data[i := Entry(merged[i].key, Arr(ListOf(Split(value.s, '|'))))];
      }
      i := i + 1;
    }
  }

  /** The inner `foreach` of the expansion, over one array value. */
  method ExpandPipesOneLevel(entries: seq<Entry>) returns (sub: seq<Entry>)
    ensures Arr(sub) == NormaliseValue(Arr(entries))
  {
    sub := entries;
    var j := 0;
    while j < |entries|
      invariant 0 <= j <= |entries| && |sub| == |entries|
      invariant forall k | 0 <= k < j :: sub[k] == Entry(entries[k].key, SplitPipes(entries[k].val))
      invariant forall k | j <= k < |entries| :: sub[k] == entries[k]
    {
      var subValue := entries[j].val;
      if subValue.Str? && '|' in subValue.s {
        sub := sub[j := Entry(entries[j].key, Arr(ListOf(Split(subValue.s, '|'))))];
      }
      j := j + 1;
    }
  }

  /** A cache after a lookup on `c`: the binding's configuration stored under
      its name, when there is one. */
  ghost function FillCache(cache: map<string, seq<Entry>>, c: Ctx): map<string, seq<Entry>> {
    match ConfigOf(c)
    case Some(data) => cache[c.name := data]
    case None => cache
  }

  /** A second lookup on a binding with the same configuration changes
      nothing more. */
  lemma FillCacheTwice(cache: map<string, seq<Entry>>, c: Ctx, c': Ctx)
    requires c'.env == c.env && c'.name == c.name
    requires c'.rec.config == c.rec.config && c'.rec.relations == c.rec.relations
    ensures FillCache(FillCache(cache, c), c') == FillCache(cache, c)
  {
    assert ConfigOf(c') == ConfigOf(c);
  }

  class Resourceful {
    var dataObject: Record
    var name: string
    var namedConfigs: map<string, seq<Entry>>

    /** The binding the functional model describes. */
    function Binding(env: Env): Ctx
      reads this
    {
      Ctx(env, dataObject, name)
    }

    /** The cache holds at most the entry for the current name, and that entry
        is the configuration a fresh computation gives. */
    ghost predicate Valid(env: Env)
      reads this
    {
      forall n | n in namedConfigs ::
        n == name && ConfigData(env.template, dataObject.config, dataObject.relations.Keys, n) == Some(namedConfigs[n])
    }

    /** The cache once the current name's configuration has been looked up. */
    ghost function Filled(env: Env): map<string, seq<Entry>>
      reads this
    {
      FillCache(namedConfigs, Binding(env))
    }

    /** `create()` followed by `setDataObject` and `setName`, as `inst` and
        the relation hand-over do. */
    constructor (dObj: Record, n: string)
      ensures dataObject == dObj && name == n && namedConfigs == map[]
    {
      dataObject := dObj;
      name := n;
      namedConfigs := map[];
    }

    /** `setDataObject($dObj)`: rebinding empties the cache. */
    method SetDataObject(dObj: Record)
      modifies this
      ensures dataObject == dObj && name == old(name) && namedConfigs == map[]
    {
      dataObject := dObj;
      namedConfigs := map[];
    }

    /** `setName($name)`: renaming empties the cache. */
    method SetName(n: string)
      modifies this
      ensures name == n && dataObject == old(dataObject) && namedConfigs == map[]
    {
      name := n;
      namedConfigs := map[];
    }

    /** `getDefaultConfigData()`: the template with the field name put into
        each `values` entry, and each `relations` entry substituted, removed
        and re-added unless it is a `local` entry naming no relation. */
    method GetDefaultConfigData(env: Env) returns (data: seq<Entry>)
      ensures data == DefaultConfigData(env.template, dataObject.relations.Keys, name)
    {
      data := env.template;
      match Section(data, "values") {
        case Some(vs) =>
          var out := vs;
          var i := 0;
          while i < |vs|
            invariant 0 <= i <= |vs| && |out| == |vs|
            invariant forall k | 0 <= k < i :: out[k] == Entry(vs[k].key, Substitute(vs[k].val, name))
            invariant forall k | i <= k < |vs| :: out[k] == vs[k]
          {
            out := out[i := Entry(vs[i].key, Substitute(vs[i].val, name))];
            i := i + 1;
          }
          assert out == SubstitutedValues(vs, name);
          data := Put(data, StrKey("values"), Arr(out));
        case None =>
      }
      match Section(data, "relations") {
        case Some(rs) =>
          var kept := [];
          var i := 0;
          while i < |rs|
            invariant 0 <= i <= |rs|
            invariant kept == KeptRelations(rs[..i], dataObject.relations.Keys, name)
          {
            assert rs[..i + 1][..i] == rs[..i];
            var newValue := Substitute(rs[i].val, name);
            if rs[i].key != StrKey(SourceLocal) || (newValue.Str? && newValue.s in dataObject.relations) {
              kept := kept + [Entry(rs[i].key, newValue)];
            }
            i := i + 1;
          }
          assert rs[..|rs|] == rs;
          data := Put(data, StrKey("relations"), Arr(kept));
        case None =>
      }
    }

    /** `mergeWithDefaultConfigData($namedData)`. */
    method MergeWithDefaultConfigData(env: Env, named: seq<Entry>) returns (merged: seq<Entry>)
      ensures merged == Merge(DefaultConfigData(env.template, dataObject.relations.Keys, name), named)
    {
      var defaults := GetDefaultConfigData(env);
      merged := [];
      var i := 0;
      while i < |defaults|
        invariant 0 <= i <= |defaults|
        invariant merged == Merge(defaults[..i], named)
      {
        assert defaults[..i + 1][..i] == defaults[..i];
        var key := defaults[i].key;
        var value := defaults[i].val;
        var namedValue := Get(named, key);
        if namedValue != Null {
          if value.Arr? && namedValue.Arr? {
            merged := Put(merged, key, Arr(ArrayMerge(value.entries, namedValue.entries)));
          } else {
            merged := Put(merged, key, namedValue);
          }
        } else {
          merged := Put(merged, key, value);
        }
        i := i + 1;
      }
      assert defaults[..|defaults|] == defaults;
    }

    /** `getConfigData()`: the cached configuration when there is one, else
        the merged and expanded one, which is then cached; null, and nothing
        cached, when the class has no array for the name. */
    method GetConfigData(env: Env) returns (r: Option<seq<Entry>>)
      requires Valid(env)
      modifies this`namedConfigs
      ensures Valid(env)
      ensures r == ConfigOf(Binding(env))
      ensures namedConfigs == old(Filled(env))
      ensures old(name in namedConfigs) ==> r == Some(old(namedConfigs[name]))
    {
      if name in namedConfigs {
        return Some(namedConfigs[name]);
      }
      var named := NamedEntry(dataObject.config, name);
      if !named.Arr? {
        return None;
      }
      var merged := MergeWithDefaultConfigData(env, named.entries);
      var data := ExpandPipes(merged);
      namedConfigs := namedConfigs[name := data];
      r := Some(data);
    }

    /** `getConfigValue($key)` on the binding's configuration. */
    method GetConfigValue(env: Env, key: string) returns (r: Value)
      requires Valid(env)
      modifies this`namedConfigs
      ensures Valid(env) && namedConfigs == old(Filled(env))
      ensures r == ConfigValue(Binding(env), key)
    {
      var data := GetConfigData(env);
      r := Config.GetConfigValue(key, data);
    }

    method GetMethodNameForSource(env: Env, source: string) returns (b: Binding)
      requires Valid(env)
      modifies this`namedConfigs
      ensures Valid(env) && namedConfigs == old(Filled(env))
      ensures b == MethodNameForSource(Binding(env), source)
    {
      var valueKeys := GetConfigValue(env, "values");
      b := ScanLoop(MethodBinding, CandidateList(valueKeys, source), dataObject);
    }

    method GetFieldNameForSource(env: Env, source: string) returns (b: Binding)
      requires Valid(env)
      modifies this`namedConfigs
      ensures Valid(env) && namedConfigs == old(Filled(env))
      ensures b == FieldNameForSource(Binding(env), source)
    {
      var valueKeys := GetConfigValue(env, "values");
      b := ScanLoop(FieldBinding, CandidateList(valueKeys, source), dataObject);
    }

    method GetRelationMethodNameForSource(env: Env, source: string) returns (b: Binding)
      requires Valid(env)
      modifies this`namedConfigs
      ensures Valid(env) && namedConfigs == old(Filled(env))
      ensures b == RelationMethodNameForSource(Binding(env), source)
    {
      var relationKeys := GetConfigValue(env, "relations");
      b := ScanLoop(MethodBinding, CandidateList(relationKeys, source), dataObject);
    }

    method GetRelationNameForSource(env: Env, source: string) returns (b: Binding)
      requires Valid(env)
      modifies this`namedConfigs
      ensures Valid(env) && namedConfigs == old(Filled(env))
      ensures b == RelationNameForSource(Binding(env), source)
    {
      var relationKeys := GetConfigValue(env, "relations");
      b := ScanLoop(RelationBinding, CandidateList(relationKeys, source), dataObject);
    }

    /** `getForceSource()`. */
    method GetForceSource(env: Env) returns (r: Option<string>)
      requires Valid(env)
      modifies this`namedConfigs
      ensures Valid(env) && namedConfigs == old(Filled(env))
      ensures r == ForceSource(Binding(env))
    {
      var source := GetConfigValue(env, "sources.force");
      if IsEmpty(source) {
        r := None;
      } else if source.Arr? {
        var force := PickForced(Binding(env), Values(source.entries));
        r := AsString(force);
      } else {
        r := AsString(source);
      }
    }

    /** `getAvailableSources()`, with `getSelectSources()` inline. */
    method GetAvailableSources(env: Env) returns (r: Option<seq<Value>>)
      requires Valid(env)
      modifies this`namedConfigs
      ensures Valid(env) && namedConfigs == old(Filled(env))
      ensures r == AvailableSources(Binding(env))
    {
      var select := GetConfigValue(env, "sources.select");
      var c := Binding(env);
      var sources := if select.Str? then Some([select]) else if select.Arr? then Some(Values(select.entries)) else None;
      assert sources == SelectSources(c);
      if sources.None? {
        return None;
      }
      var available := CollectAvailable(c, sources.value);
      r := if available == [] then None else Some(available);
    }

    /** `setFieldDefaults()`: the record's inherit toggle and source choice
        are reset where the record has those fields; the cache stays valid,
        since neither the class configuration nor the relations change. */
    method SetFieldDefaults(env: Env)
      requires Valid(env)
      modifies this
      ensures name == old(name) && Valid(env) && namedConfigs == old(Filled(env))
      ensures dataObject == WithFieldDefaults(old(dataObject), DoInheritFieldName(old(Binding(env))), SourceFieldName(old(Binding(env))))
    {
      ghost var c := Binding(env);
      ghost var cache := namedConfigs;
      var inheritName := GetConfigValue(env, "values.{inherit}");
      var doInherit := AsString(inheritName);
      assert doInherit == DoInheritFieldName(c);
      if HasField(dataObject, doInherit) {
        dataObject := dataObject.(fields := dataObject.fields[doInherit.value := Bool(true)]);
      }
      ghost var c' := Binding(env);
      assert ConfigOf(c') == ConfigOf(c);
      FillCacheTwice(cache, c, c');
      var sourceName := GetConfigValue(env, "values.{source}");
      var source := AsString(sourceName);
      assert source == SourceFieldName(c);
      if HasField(dataObject, source) {
        dataObject := dataObject.(fields := dataObject.fields[source.value := Str(SourceDefault)]);
      }
    }
  }
}
