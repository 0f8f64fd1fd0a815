/** The named configuration of one resourceful field: the defaults with the
    field name substituted, merged with the class's own entry for that name,
    `a|b` strings expanded into lists, and the dotted-path lookup on the
    result. */
module Config {
  import opened Php

  const FieldNameToken: string := "{field_name}"

  /** The shipped `values` defaults: the local source reads the method
      `->{field_name}_Local`, else the field `{field_name}_Local`. */
  const StockValuesSection: seq<Entry> := [
    Entry(StrKey("local"), Str("->" + FieldNameToken + "_Local|" + FieldNameToken + "_Local")),
    Entry(StrKey("{inherit}"), Str(FieldNameToken + "_DoInherit")),
    Entry(StrKey("{source}"), Str(FieldNameToken + "_Source"))]

  /** The shipped `relations` defaults; `parent` and `site` require their
      relation. */
  const StockRelationsSection: seq<Entry> := [
    Entry(StrKey("parent"), Str("Parent")),
    Entry(StrKey("site"), Str("Site")),
    Entry(StrKey("{require}"), Str("parent|site"))]

  /** The resolver's shipped `default_config`. */
  const StockTemplate: seq<Entry> := [
    Entry(StrKey("enabled"), Bool(true)),
    Entry(StrKey("sources"), Arr([
      Entry(StrKey("force"), Null),
      Entry(StrKey("inherit"), Null),
      Entry(StrKey("select"), Str("local")),
      Entry(StrKey("default"), Str("local"))])),
    Entry(StrKey("values"), Arr(StockValuesSection)),
    Entry(StrKey("relations"), Arr(StockRelationsSection)),
    Entry(StrKey("source_field_class"), Str("SilverStripe\\Forms\\OptionsetField")),
    Entry(StrKey("cms_fields"), Null),
    Entry(StrKey("settings_fields"), Null)
  ]

  /** The array stored under a string key, if that entry is an array. */
  function Section(es: seq<Entry>, key: string): Option<seq<Entry>> {
    match Find(es, StrKey(key))
    case Some(Arr(sub)) => Some(sub)
    case _ => None
  }

  // ---------------------------------------------------------------------
  // getDefaultConfigData

  /** `str_replace('{field_name}', $name, $v)`. An array has each scalar
      element substituted and its nested arrays copied; an object is left as
      it is (PHP raises a TypeError). */
  function Substitute(v: Value, name: string): Value {
    match v
    case Arr(es) => Arr(seq(|es|, i requires 0 <= i < |es| =>
                      Entry(es[i].key,
                            if es[i].val.Arr? || es[i].val.Obj? then es[i].val
                            else Str(ReplaceAll(ScalarText(es[i].val), FieldNameToken, name)))))
    case Obj(_) => v
    case _ => Str(ReplaceAll(ScalarText(v), FieldNameToken, name))
  }

  /** The `values` defaults with the field name substituted, keys in place. */
  function SubstitutedValues(es: seq<Entry>, name: string): seq<Entry> {
    seq(|es|, i requires 0 <= i < |es| => Entry(es[i].key, Substitute(es[i].val, name)))
  }

  /** A `relations` default survives unless it is the `local` one and the
      host declares no relation of the substituted name. */
  predicate KeepsRelation(e: Entry, relationNames: set<string>, name: string) {
    var v := Substitute(e.val, name);
    e.key != StrKey("local") || (v.Str? && v.s in relationNames)
  }

  /** The `relations` defaults, substituted, without a `local` entry the host
      cannot back; each survivor is re-added in the order visited. */
  function KeptRelations(es: seq<Entry>, relationNames: set<string>, name: string): seq<Entry> {
    if es == [] then []
    else
      var e := es[|es| - 1];
      KeptRelations(es[..|es| - 1], relationNames, name)
        + (if KeepsRelation(e, relationNames, name) then [Entry(e.key, Substitute(e.val, name))] else [])
  }

  /** `getDefaultConfigData()` for a host whose declared relations are
      `relationNames`. */
  function DefaultConfigData(template: seq<Entry>, relationNames: set<string>, name: string): seq<Entry> {
    var withValues :=
      match Section(template, "values")
      case Some(vs) => Put(template, StrKey("values"), Arr(SubstitutedValues(vs, name)))
      case None => template;
    match Section(withValues, "relations")
    case Some(rs) => Put(withValues, StrKey("relations"), Arr(KeptRelations(rs, relationNames, name)))
    case None => withValues
  }

  lemma FindAppend(es: seq<Entry>, e: Entry, k: Key)
    ensures Find(es + [e], k) == if Find(es, k).Some? then Find(es, k) else if e.key == k then Some(e.val) else None
    decreases |es|
  {
    if es != [] {
      assert (es + [e])[1..] == es[1..] + [e];
      FindAppend(es[1..], e, k);
    }
  }

  lemma KeysCons(e: Entry, es: seq<Entry>)
    ensures Keys([e] + es) == [e.key] + Keys(es)
  {
    var l := Keys([e] + es);
    var r := [e.key] + Keys(es);
    assert |l| == |r|;
    forall i | 0 <= i < |l| ensures l[i] == r[i] {
      if i > 0 {
        assert ([e] + es)[i] == es[i - 1];
      }
    }
  }

  lemma {:induction false} PutExistingKeepsKeys(es: seq<Entry>, k: Key, v: Value)
    requires Find(es, k).Some?
    ensures Keys(Put(es, k, v)) == Keys(es)
    decreases |es|
  {
    assert es == [es[0]] + es[1..];
    KeysCons(es[0], es[1..]);
    if es[0].key != k {
      PutExistingKeepsKeys(es[1..], k, v);
      KeysCons(es[0], Put(es[1..], k, v));
    } else {
      KeysCons(Entry(k, v), es[1..]);
    }
  }

  /** Which `relations` defaults survive, key by key. */
  lemma {:induction false} KeptRelationsFind(es: seq<Entry>, relationNames: set<string>, name: string, k: Key)
    requires UniqueKeys(es)
    ensures Find(KeptRelations(es, relationNames, name), k)
         == match Find(es, k)
            case Some(v) =>
              if KeepsRelation(Entry(k, v), relationNames, name) then Some(Substitute(v, name)) else None
            case None => None
    decreases |es|
  {
    if es != [] {
      var init := es[..|es| - 1];
      var e := es[|es| - 1];
      var x := Entry(e.key, Substitute(e.val, name));
      var kept := KeptRelations(init, relationNames, name);
      UniqueKeysPrefix(es, |es| - 1);
      KeptRelationsFind(init, relationNames, name, k);
      assert es == init + [e];
      FindAppend(init, e, k);
      if KeepsRelation(e, relationNames, name) {
        FindAppend(kept, x, k);
        assert KeptRelations(es, relationNames, name) == kept + [x];
      } else {
        assert KeptRelations(es, relationNames, name) == kept;
      }
      if e.key == k {
        forall i | 0 <= i < |init| ensures init[i].key != k {
          assert init[i] == es[i];
        }
        assert Find(init, k).None?;
        assert Find(es, k) == Some(e.val);
        assert e == Entry(k, e.val);
      }
    }
  }

  /** The defaults keep the template's keys in order; `values` has the field
      name substituted in each entry; a `relations` entry is the substituted
      default, and the `local` one survives only when the host declares a
      relation of that name. */
  lemma DefaultConfigDataShape(template: seq<Entry>, relationNames: set<string>, name: string, k: Key)
    requires Section(template, "values").Some? && Section(template, "relations").Some?
    requires UniqueKeys(Section(template, "relations").value)
    ensures Keys(DefaultConfigData(template, relationNames, name)) == Keys(template)
    ensures Section(DefaultConfigData(template, relationNames, name), "values")
         == Some(SubstitutedValues(Section(template, "values").value, name))
    ensures Section(DefaultConfigData(template, relationNames, name), "relations").Some?
    ensures Find(Section(DefaultConfigData(template, relationNames, name), "relations").value, k)
         == match Find(Section(template, "relations").value, k)
            case Some(v) =>
              if KeepsRelation(Entry(k, v), relationNames, name) then Some(Substitute(v, name)) else None
            case None => None
  {
    var vs := Section(template, "values").value;
    var rs := Section(template, "relations").value;
    var withValues := Put(template, StrKey("values"), Arr(SubstitutedValues(vs, name)));
    PutExistingKeepsKeys(template, StrKey("values"), Arr(SubstitutedValues(vs, name)));
    assert Section(withValues, "relations") == Some(rs);
    PutExistingKeepsKeys(withValues, StrKey("relations"), Arr(KeptRelations(rs, relationNames, name)));
    KeptRelationsFind(rs, relationNames, name, k);
  }

  /** Text without `{` has no placeholder to replace. */
  lemma PlainText(t: string, name: string)
    requires '{' !in t
    ensures ReplaceAll(t, FieldNameToken, name) == t
  {
    assert t + [] == t;
    ReplaceSkips(t, [], FieldNameToken, name);
  }

  /** A placeholder after plain text becomes the field name. */
  lemma PlaceholderAfter(pre: string, rest: string, name: string)
    requires '{' !in pre
    ensures ReplaceAll(pre + FieldNameToken + rest, FieldNameToken, name) == pre + name + ReplaceAll(rest, FieldNameToken, name)
  {
    ReplaceSkips(pre, FieldNameToken + rest, FieldNameToken, name);
    ReplaceLeading(rest, FieldNameToken, name);
    assert pre + FieldNameToken + rest == pre + (FieldNameToken + rest);
  }

  /** `str_replace` on the stock `values` strings: each placeholder becomes
      the field name, whatever the name holds. */
  lemma StockValueNames(name: string)
    ensures ReplaceAll("->" + FieldNameToken + "_Local|" + FieldNameToken + "_Local", FieldNameToken, name)
         == "->" + name + "_Local|" + name + "_Local"
    ensures ReplaceAll(FieldNameToken + "_DoInherit", FieldNameToken, name) == name + "_DoInherit"
    ensures ReplaceAll(FieldNameToken + "_Source", FieldNameToken, name) == name + "_Source"
  {
    LocalCandidateName(name);
    SuffixedName("_DoInherit", name);
    SuffixedName("_Source", name);
  }

  /** A placeholder followed by plain text. */
  lemma SuffixedName(suffix: string, name: string)
    requires '{' !in suffix
    ensures ReplaceAll(FieldNameToken + suffix, FieldNameToken, name) == name + suffix
  {
    PlainText(suffix, name);
    PlaceholderAfter("", suffix, name);
    assert "" + FieldNameToken + suffix == FieldNameToken + suffix;
    assert "" + name + suffix == name + suffix;
  }

  /** Two placeholders between plain texts. */
  lemma TwoPlaceholders(a: string, b: string, c: string, name: string)
    requires '{' !in a && '{' !in b && '{' !in c
    ensures ReplaceAll(a + FieldNameToken + b + FieldNameToken + c, FieldNameToken, name) == a + name + b + name + c
  {
    var tok := FieldNameToken;
    PlainText(c, name);
    PlaceholderAfter(b, c, name);
    PlaceholderAfter(a, b + tok + c, name);
    assert a + tok + b + tok + c == a + tok + (b + tok + c);
    assert a + name + (b + name + c) == a + name + b + name + c;
  }

  /** The stock `local` candidate: two placeholders. */
  lemma LocalCandidateName(name: string)
    ensures ReplaceAll("->" + FieldNameToken + "_Local|" + FieldNameToken + "_Local", FieldNameToken, name)
         == "->" + name + "_Local|" + name + "_Local"
  {
    TwoPlaceholders("->", "_Local|", "_Local", name);
  }

  /** The first entry with key `k` decides the lookup. */
  lemma {:induction false} FindAt(es: seq<Entry>, i: nat, k: Key)
    requires i < |es| && es[i].key == k
    requires forall j | 0 <= j < i :: es[j].key != k
    ensures Find(es, k) == Some(es[i].val)
  {
    if i > 0 {
      FindAt(es[1..], i - 1, k);
    }
  }

  /** The stock template's two sections are where the substitution finds
      them. */
  lemma StockSections()
    ensures Section(StockTemplate, "values") == Some(StockValuesSection)
    ensures Section(StockTemplate, "relations") == Some(StockRelationsSection)
    ensures UniqueKeys(StockRelationsSection)
  {
    FindAt(StockTemplate, 2, StrKey("values"));
    FindAt(StockTemplate, 3, StrKey("relations"));
  }

  /** The stock `values` defaults for a field `name`: local candidates
      `->{name}_Local` then `{name}_Local`, toggle field `{name}_DoInherit`,
      choice field `{name}_Source`. */
  lemma StockValues(relationNames: set<string>, name: string)
    ensures Section(DefaultConfigData(StockTemplate, relationNames, name), "values") == Some([
              Entry(StrKey("local"), Str("->" + name + "_Local|" + name + "_Local")),
              Entry(StrKey("{inherit}"), Str(name + "_DoInherit")),
              Entry(StrKey("{source}"), Str(name + "_Source"))])
  {
    StockSections();
    StockValueNames(name);
    assert SubstitutedValues(StockValuesSection, name) == [
              Entry(StrKey("local"), Str("->" + name + "_Local|" + name + "_Local")),
              Entry(StrKey("{inherit}"), Str(name + "_DoInherit")),
              Entry(StrKey("{source}"), Str(name + "_Source"))];
    DefaultConfigDataShape(StockTemplate, relationNames, name, StrKey("values"));
  }

  // ---------------------------------------------------------------------
  // mergeWithDefaultConfigData

  /** What the merge stores under a default key `k` whose default is `dv`. */
  function MergedValue(dv: Value, named: seq<Entry>, k: Key): Value {
    var nv := Get(named, k);
    if nv == Null then dv
    else if dv.Arr? && nv.Arr? then Arr(ArrayMerge(dv.entries, nv.entries))
    else nv
  }

  /** `mergeWithDefaultConfigData($named)` on the given defaults. */
  function Merge(defaults: seq<Entry>, named: seq<Entry>): seq<Entry> {
    if defaults == [] then []
    else
      var e := defaults[|defaults| - 1];
      Put(Merge(defaults[..|defaults| - 1], named), e.key, MergedValue(e.val, named, e.key))
  }

  lemma {:induction false} PutAbsentAppends(es: seq<Entry>, k: Key, v: Value)
    requires forall i | 0 <= i < |es| :: es[i].key != k
    ensures Put(es, k, v) == es + [Entry(k, v)]
    decreases |es|
  {
    if es != [] {
      PutAbsentAppends(es[1..], k, v);
    }
  }

  /** The merge as one entry per default, in the defaults' order. */
  function MergedEntries(defaults: seq<Entry>, named: seq<Entry>): seq<Entry> {
    seq(|defaults|, i requires 0 <= i < |defaults| =>
      Entry(defaults[i].key, MergedValue(defaults[i].val, named, defaults[i].key)))
  }

  lemma UniqueKeysPrefix(es: seq<Entry>, n: nat)
    requires UniqueKeys(es) && n <= |es|
    ensures UniqueKeys(es[..n])
  {
    forall i, j | 0 <= i < j < n ensures es[..n][i].key != es[..n][j].key {
      assert es[..n][i] == es[i] && es[..n][j] == es[j];
    }
  }

  /** The merge holds exactly the default keys, in their order (keys only the
      named configuration has are dropped); under each, both arrays are
      `array_merge`d, a set named value replaces the default, and an unset
      one keeps it. */
  lemma {:induction false} MergeShape(defaults: seq<Entry>, named: seq<Entry>)
    requires UniqueKeys(defaults)
    ensures Merge(defaults, named) == MergedEntries(defaults, named)
    decreases |defaults|
  {
    if defaults != [] {
      var n := |defaults| - 1;
      var init := defaults[..n];
      var e := defaults[n];
      UniqueKeysPrefix(defaults, n);
      MergeShape(init, named);
      var m := MergedEntries(init, named);
      forall i | 0 <= i < |m| ensures m[i].key != e.key {
        assert m[i].key == defaults[i].key;
      }
      var x := Entry(e.key, MergedValue(e.val, named, e.key));
      assert Merge(defaults, named) == Put(m, e.key, x.val);
      PutAbsentAppends(m, e.key, x.val);
      MergedEntriesSnoc(defaults, named);
    }
  }

  lemma MergedEntriesSnoc(defaults: seq<Entry>, named: seq<Entry>)
    requires defaults != []
    ensures var n := |defaults| - 1;
            MergedEntries(defaults, named)
            == MergedEntries(defaults[..n], named) + [Entry(defaults[n].key, MergedValue(defaults[n].val, named, defaults[n].key))]
  {
    var n := |defaults| - 1;
    var l := MergedEntries(defaults, named);
    var r := MergedEntries(defaults[..n], named) + [Entry(defaults[n].key, MergedValue(defaults[n].val, named, defaults[n].key))];
    assert |l| == |r|;
    forall i | 0 <= i < |l| ensures l[i] == r[i] {
      if i < n {
        assert defaults[..n][i] == defaults[i];
      }
    }
  }

  /** Named entries win over default entries of the same string key when both
      are arrays; default entries with other keys are kept. */
  lemma MergedArraysPreferNamed(dv: Value, named: seq<Entry>, k: Key, sub: string)
    requires dv.Arr? && Get(named, k).Arr?
    requires UniqueKeys(dv.entries) && UniqueKeys(Get(named, k).entries)
    ensures MergedValue(dv, named, k).Arr?
    ensures Find(MergedValue(dv, named, k).entries, StrKey(sub))
         == if Find(Get(named, k).entries, StrKey(sub)).Some? then Find(Get(named, k).entries, StrKey(sub))
            else Find(dv.entries, StrKey(sub))
  {
    ArrayMergeStringKeys(dv.entries, Get(named, k).entries, sub);
  }

  // ---------------------------------------------------------------------
  // the `|` expansion in getConfigData

  /** A string holding `|` becomes the list `explode('|', ...)` gives. */
  function SplitPipes(v: Value): Value {
    if v.Str? && '|' in v.s then Arr(ListOf(Split(v.s, '|'))) else v
  }

  /** A top-level value: an array has each element expanded, anything else is
      expanded itself. */
  function NormaliseValue(v: Value): Value {
    if v.Arr? then
      Arr(seq(|v.entries|, j requires 0 <= j < |v.entries| => Entry(v.entries[j].key, SplitPipes(v.entries[j].val))))
    else SplitPipes(v)
  }

  function Normalise(es: seq<Entry>): seq<Entry> {
    seq(|es|, i requires 0 <= i < |es| => Entry(es[i].key, NormaliseValue(es[i].val)))
  }

  predicate NoPipe(v: Value) {
    v.Str? ==> '|' !in v.s
  }

  /** No top-level and no second-level string holds `|`. */
  predicate PipeFree(es: seq<Entry>) {
    forall i | 0 <= i < |es| ::
      NoPipe(es[i].val)
      && (es[i].val.Arr? ==> forall j | 0 <= j < |es[i].val.entries| :: NoPipe(es[i].val.entries[j].val))
  }

  lemma SplitPipesClean(v: Value)
    ensures NoPipe(SplitPipes(v))
    ensures SplitPipes(v).Arr? && !v.Arr? ==> forall j | 0 <= j < |SplitPipes(v).entries| :: NoPipe(SplitPipes(v).entries[j].val)
  {
    if v.Str? && '|' in v.s {
      var parts := Split(v.s, '|');
      forall j | 0 <= j < |parts| ensures NoPipe(ListOf(parts)[j].val) {
        assert parts[j] in parts;
      }
    }
  }

  /** After the expansion no top-level or second-level string holds `|`. */
  lemma NormaliseIsPipeFree(es: seq<Entry>)
    ensures PipeFree(Normalise(es))
  {
    forall i | 0 <= i < |es|
      ensures NoPipe(Normalise(es)[i].val)
      ensures Normalise(es)[i].val.Arr? ==>
                forall j | 0 <= j < |Normalise(es)[i].val.entries| :: NoPipe(Normalise(es)[i].val.entries[j].val)
    {
      var v := es[i].val;
      if v.Arr? {
        forall j | 0 <= j < |v.entries| ensures NoPipe(SplitPipes(v.entries[j].val)) {
          SplitPipesClean(v.entries[j].val);
        }
      } else {
        SplitPipesClean(v);
      }
    }
  }

  /** Each expanded string is split in order: its pieces, joined with `|`,
      give it back. */
  lemma NormaliseSplitsInOrder(es: seq<Entry>, i: nat)
    requires i < |es| && es[i].val.Str? && '|' in es[i].val.s
    ensures Normalise(es)[i].val.Arr?
    ensures Normalise(es)[i].val == Arr(ListOf(Split(es[i].val.s, '|')))
    ensures Join(Split(es[i].val.s, '|'), '|') == es[i].val.s
  {
    JoinSplit(es[i].val.s, '|');
  }

  /** The same one level down: a string holding `|` inside a top-level array
      becomes the list of its pieces, in order, under the same key. */
  lemma NormaliseSplitsNestedInOrder(es: seq<Entry>, i: nat, j: nat)
    requires i < |es| && es[i].val.Arr? && j < |es[i].val.entries|
    requires es[i].val.entries[j].val.Str? && '|' in es[i].val.entries[j].val.s
    ensures Normalise(es)[i].val.Arr? && j < |Normalise(es)[i].val.entries|
    ensures Normalise(es)[i].val.entries[j]
         == Entry(es[i].val.entries[j].key, Arr(ListOf(Split(es[i].val.entries[j].val.s, '|'))))
    ensures Join(Split(es[i].val.entries[j].val.s, '|'), '|') == es[i].val.entries[j].val.s
  {
    JoinSplit(es[i].val.entries[j].val.s, '|');
  }

  /** A configuration already free of `|` is left as it is, so the expansion
      is idempotent. */
  lemma NormaliseFixesPipeFree(es: seq<Entry>)
    requires PipeFree(es)
    ensures Normalise(es) == es
  {
    forall i | 0 <= i < |es| ensures Normalise(es)[i] == es[i] {
      var v := es[i].val;
      if v.Arr? {
        var w := NormaliseValue(v);
        assert |w.entries| == |v.entries|;
        forall j | 0 <= j < |v.entries| ensures w.entries[j] == v.entries[j] {
          assert NoPipe(v.entries[j].val);
        }
        assert w.entries == v.entries;
      }
    }
  }

  lemma NormaliseIdempotent(es: seq<Entry>)
    ensures Normalise(Normalise(es)) == Normalise(es)
  {
    NormaliseIsPipeFree(es);
    NormaliseFixesPipeFree(Normalise(es));
  }

  // ---------------------------------------------------------------------
  // getConfigData

  /** The entry the class configuration `config` holds for `name`. */
  function NamedEntry(config: Value, name: string): Value {
    if config.Arr? then Get(config.entries, NormKey(name)) else Null
  }

  /** `getConfigData()` without its cache: null unless the class's entry for
      `name` is an array; otherwise the merged and expanded configuration. */
  function ConfigData(template: seq<Entry>, config: Value, relationNames: set<string>, name: string): Option<seq<Entry>> {
    var named := NamedEntry(config, name);
    if named.Arr? then Some(Normalise(Merge(DefaultConfigData(template, relationNames, name), named.entries)))
    else None
  }

  /** The configuration exists exactly when the class's entry is an array;
      then it has the template's keys in order, holds no `|` at the first two
      levels, and under each key the merged value, expanded. */
  lemma ConfigDataShape(template: seq<Entry>, config: Value, relationNames: set<string>, name: string)
    requires UniqueKeys(template)
    requires Section(template, "values").Some? && Section(template, "relations").Some?
    requires UniqueKeys(Section(template, "relations").value)
    ensures ConfigData(template, config, relationNames, name).Some? <==> NamedEntry(config, name).Arr?
    ensures NamedEntry(config, name).Arr? ==>
              ConfigData(template, config, relationNames, name)
              == Some(Normalise(MergedEntries(DefaultConfigData(template, relationNames, name), NamedEntry(config, name).entries)))
    ensures ConfigData(template, config, relationNames, name).Some? ==>
              Keys(ConfigData(template, config, relationNames, name).value) == Keys(template)
              && PipeFree(ConfigData(template, config, relationNames, name).value)
  {
    var named := NamedEntry(config, name);
    if named.Arr? {
      var defaults := DefaultConfigData(template, relationNames, name);
      DefaultConfigDataShape(template, relationNames, name, StrKey("values"));
      KeysAgreeUnique(defaults, template);
      MergeShape(defaults, named.entries);
      var merged := MergedEntries(defaults, named.entries);
      NormaliseIsPipeFree(merged);
      assert Keys(Normalise(merged)) == Keys(defaults);
    }
  }

  lemma KeysAgreeUnique(a: seq<Entry>, b: seq<Entry>)
    requires Keys(a) == Keys(b) && UniqueKeys(b)
    ensures UniqueKeys(a)
  {
    forall i, j | 0 <= i < j < |a| ensures a[i].key != a[j].key {
      assert Keys(a)[i] == b[i].key && Keys(a)[j] == b[j].key;
    }
  }

  // ---------------------------------------------------------------------
  // getConfigValue

  function FirstIndexOf(s: string, c: char): (i: nat)
    requires c in s
    ensures i < |s| && s[i] == c && c !in s[..i]
  {
    if s[0] == c then 0
    else
      var j := FirstIndexOf(s[1..], c);
      assert s[1..][..j] == s[1..j + 1];
      j + 1
  }

  /** `getConfigValue($key, $data)` once `$data` is known: null for no data or
      an empty key; a dotted key descends into nested arrays; a string holding
      `|` is expanded; a literal false comes back unchanged and every other
      empty value as null. */
  function GetConfigValue(key: string, data: Option<seq<Entry>>): (r: Value)
    ensures r == Null || r == Bool(false) || !IsEmpty(r)
    decreases |key|
  {
    if data.None? || EmptyString(key) then Null
    else
      var dot := '.' in key;
      var head := if dot then key[..FirstIndexOf(key, '.')] else key;
      var extra := if dot then key[FirstIndexOf(key, '.') + 1..] else "";
      var value := Get(data.value, NormKey(head));
      if !IsEmpty(value) && !EmptyString(extra) then
        if value.Arr? then GetConfigValue(extra, Some(value.entries)) else Null
      else
        var value' := if !IsEmpty(value) && value.Str? && '|' in value.s then Arr(ListOf(Split(value.s, '|'))) else value;
        if IsEmpty(value') && value' != Bool(false) then Null else value'
  }

  /** A literal false under a plain key is returned as false. */
  lemma GetConfigValueKeepsFalse(key: string, data: seq<Entry>)
    requires !EmptyString(key) && '.' !in key
    requires Get(data, NormKey(key)) == Bool(false)
    ensures GetConfigValue(key, Some(data)) == Bool(false)
  {
  }

  /** A non-empty value under a plain key comes back as it is, a string
      holding `|` split into the list of its pieces. */
  lemma GetConfigValuePlain(key: string, data: seq<Entry>)
    requires !EmptyString(key) && '.' !in key
    requires !IsEmpty(Get(data, NormKey(key)))
    ensures GetConfigValue(key, Some(data)) == SplitPipes(Get(data, NormKey(key)))
  {
  }

  /** A missing or empty value under a plain key reads as null, false aside. */
  lemma GetConfigValueEmptyIsNull(key: string, data: Option<seq<Entry>>)
    requires data.None? || EmptyString(key) || ('.' !in key && IsEmpty(Get(data.value, NormKey(key))) && Get(data.value, NormKey(key)) != Bool(false))
    ensures GetConfigValue(key, data) == Null
  {
  }

  lemma FirstDot(head: string, extra: string)
    requires '.' !in head
    ensures '.' in head + "." + extra
    ensures FirstIndexOf(head + "." + extra, '.') == |head|
  {
    var key := head + "." + extra;
    assert key[|head|] == '.';
    assert key[..|head|] == head;
  }

  /** A dotted key whose head holds an empty value stops there: a literal
      false comes back as false, any other empty value as null. */
  lemma GetConfigValueDottedEmptyHead(head: string, extra: string, data: seq<Entry>)
    requires '.' !in head
    requires IsEmpty(Get(data, NormKey(head)))
    ensures GetConfigValue(head + "." + extra, Some(data))
         == if Get(data, NormKey(head)) == Bool(false) then Bool(false) else Null
  {
    var key := head + "." + extra;
    FirstDot(head, extra);
    assert key[..|head|] == head && key[|head| + 1..] == extra;
    assert !EmptyString(key);
  }

  /** `head.extra` looks `extra` up inside the non-empty array under `head`,
      and reads null when the value under `head` is not an array. */
  lemma GetConfigValueDescends(head: string, extra: string, data: seq<Entry>)
    requires '.' !in head && !EmptyString(extra)
    requires !IsEmpty(Get(data, NormKey(head)))
    ensures GetConfigValue(head + "." + extra, Some(data))
         == if Get(data, NormKey(head)).Arr? then GetConfigValue(extra, Some(Get(data, NormKey(head)).entries)) else Null
  {
    var key := head + "." + extra;
    FirstDot(head, extra);
    assert key[..|head|] == head && key[|head| + 1..] == extra;
    assert !EmptyString(key);
  }
}
