/** Source availability, source selection, inheritance and value resolution
    for one (record, field name) binding. Every query reads the binding's
    configuration afresh, as the resolver does through its cache. */
module Resolution {
  import opened Php
  import opened Host
  import opened Config
  import opened Scans

  const SourceLocal: string := "local"
  const SourceParent: string := "parent"
  const SourceSite: string := "site"
  const SourceDefault: string := "default"
  const SourceNone: string := "none"

  /** A resolver bound to `rec` and the field `name`, with the global state. */
  datatype Ctx = Ctx(env: Env, rec: Record, name: string)

  /** `getConfigData()`. */
  function ConfigOf(c: Ctx): Option<seq<Entry>> {
    ConfigData(c.env.template, c.rec.config, c.rec.relations.Keys, c.name)
  }

  /** `getConfigValue($key)`. */
  function ConfigValue(c: Ctx, key: string): Value {
    GetConfigValue(key, ConfigOf(c))
  }

  /** `isEnabled()`: only a literal false disables. */
  predicate IsEnabled(c: Ctx) {
    ConfigValue(c, "enabled") != Bool(false)
  }

  function DoInheritFieldName(c: Ctx): Option<string> {
    AsString(ConfigValue(c, "values.{inherit}"))
  }

  function SourceFieldName(c: Ctx): Option<string> {
    AsString(ConfigValue(c, "values.{source}"))
  }

  function FieldOf(rec: Record, name: Option<string>): Value {
    if name.Some? then GetField(rec, name.value) else Null
  }

  predicate HasField(rec: Record, name: Option<string>) {
    name.Some? && name.value in rec.fields
  }

  // ---------------------------------------------------------------------
  // the four candidate scans on the binding's configuration

  function MethodNameForSource(c: Ctx, source: string): Binding {
    ScanCandidates(MethodBinding, CandidateList(ConfigValue(c, "values"), source), c.rec)
  }

  function FieldNameForSource(c: Ctx, source: string): Binding {
    ScanCandidates(FieldBinding, CandidateList(ConfigValue(c, "values"), source), c.rec)
  }

  function RelationMethodNameForSource(c: Ctx, source: string): Binding {
    ScanCandidates(MethodBinding, CandidateList(ConfigValue(c, "relations"), source), c.rec)
  }

  function RelationNameForSource(c: Ctx, source: string): Binding {
    ScanCandidates(RelationBinding, CandidateList(ConfigValue(c, "relations"), source), c.rec)
  }

  // ---------------------------------------------------------------------
  // availability

  /** `getSourceRelation($source)`: a relation method's result as it is; a
      named relation's record only when it exists; for `site` with no binding,
      the fallback site. */
  function SourceRelation(c: Ctx, source: Option<string>): Option<Record> {
    if source.None? || EmptyString(source.value) then None
    else
      var s := source.value;
      match RelationMethodNameForSource(c, s)
      case Disabled => None
      case Found(m) => RecordOf(c.env, c.rec.methods[m])
      case NotFound =>
        match RelationNameForSource(c, s)
        case Disabled => None
        case Found(r) =>
          var related := RelatedRecord(c.env, c.rec, r);
          if related.Some? && related.value.persisted then related else None
        case NotFound => if s == SourceSite then FallbackSite(c.env, c.rec) else None
  }

  /** `isSourceRelationRequired($source)`: `source` is listed (loosely equal)
      in `relations.{require}`. */
  predicate IsSourceRelationRequired(c: Ctx, source: string) {
    Lists(ConfigValue(c, "relations.{require}"), source)
  }

  /** `in_array($source, $required)` once a string is made a one-element
      list; an empty value lists nothing. */
  predicate Lists(required: Value, source: string) {
    if IsEmpty(required) then false
    else match required
      case Str(_) => LooseEquals(required, source)
      case Arr(es) => exists i | 0 <= i < |es| :: LooseEquals(es[i].val, source)
      case _ => false
  }

  /** `isSourceAvailable($source)`, its rules in the source's order. */
  predicate IsSourceAvailable(c: Ctx, source: Option<string>) {
    if source.None? || EmptyString(source.value) then false
    else
      var s := source.value;
      if s == SourceNone || s == SourceDefault then true
      else if FieldNameForSource(c, s) != NotFound then FieldNameForSource(c, s).Found?
      else if MethodNameForSource(c, s) != NotFound then MethodNameForSource(c, s).Found?
      else if IsSourceRelationRequired(c, s) then SourceRelation(c, source).Some?
      else if RelationNameForSource(c, s) != NotFound then RelationNameForSource(c, s).Found?
      else if RelationMethodNameForSource(c, s) != NotFound then RelationMethodNameForSource(c, s).Found?
      else s == SourceSite && FallbackSite(c.env, c.rec).Some?
  }

  /** A configured source value, passed to `isSourceAvailable` as `?string`. */
  predicate Usable(c: Ctx, v: Value) {
    IsSourceAvailable(c, AsString(v))
  }

  // ---------------------------------------------------------------------
  // selection

  /** The first usable entry of a list. */
  function FirstAvailable(c: Ctx, parts: seq<Value>): Option<Value> {
    if parts == [] then None
    else if Usable(c, parts[0]) then Some(parts[0])
    else FirstAvailable(c, parts[1..])
  }

  /** The entry a forced source list settles on: the first usable one, or the
      first one when none is usable. */
  function ChosenForced(c: Ctx, parts: seq<Value>): Value
    requires |parts| > 0
  {
    match FirstAvailable(c, parts)
    case Some(v) => v
    case None => parts[0]
  }

  /** `getForceSource()`. */
  function ForceSource(c: Ctx): Option<string> {
    var v := ConfigValue(c, "sources.force");
    if IsEmpty(v) then None
    else if v.Arr? then AsString(ChosenForced(c, Values(v.entries)))
    else AsString(v)
  }

  /** `getInheritSource()`: the first inherit source, null when empty. */
  function InheritSource(c: Ctx): Option<string> {
    var v := ConfigValue(c, "sources.inherit");
    var first := if v.Arr? then Reset(v.entries) else v;
    if IsEmpty(first) then None else AsString(first)
  }

  /** `getDefaultSource()`: the first default source, null for false. */
  function DefaultSource(c: Ctx): Option<string> {
    var v := ConfigValue(c, "sources.default");
    var first := if v.Arr? then Reset(v.entries) else v;
    if first == Bool(false) then None else AsString(first)
  }

  /** `getSelectedSource()`: the record's stored choice; empty and `default`
      read as null. */
  function SelectedSource(c: Ctx): Option<string> {
    var v := FieldOf(c.rec, SourceFieldName(c));
    if IsEmpty(v) || v == Str(SourceDefault) then None else AsString(v)
  }

  /** `isInheritable()`. */
  predicate IsInheritable(c: Ctx) {
    var inherit := InheritSource(c);
    inherit.Some? && !EmptyString(inherit.value)
    && IsSourceAvailable(c, inherit)
    && HasField(c.rec, DoInheritFieldName(c))
  }

  /** `isInherited()`: inheritable and the toggle field is set. */
  predicate IsInherited(c: Ctx) {
    IsInheritable(c) && !IsEmpty(FieldOf(c.rec, DoInheritFieldName(c)))
  }

  /** `getSource()`. */
  function Source(c: Ctx): Option<string> {
    match ForceSource(c)
    case Some(s) => Some(s)
    case None =>
      if IsInherited(c) then InheritSource(c)
      else
        var selected := SelectedSource(c);
        if selected.None? || !IsSourceAvailable(c, selected) then DefaultSource(c) else selected
  }

  /** `getSelectSources()`: a string is a one-element list; false is null. */
  function SelectSources(c: Ctx): Option<seq<Value>> {
    var v := ConfigValue(c, "sources.select");
    if v.Str? then Some([v])
    else if v.Arr? then Some(Values(v.entries))
    else None
  }

  /** The usable entries of a list, in the list's order. */
  function AvailableAmong(c: Ctx, sources: seq<Value>): seq<Value> {
    if sources == [] then []
    else
      var last := sources[|sources| - 1];
      AvailableAmong(c, sources[..|sources| - 1]) + (if Usable(c, last) then [last] else [])
  }

  /** `getAvailableSources()`. */
  function AvailableSources(c: Ctx): Option<seq<Value>> {
    match SelectSources(c)
    case None => None
    case Some(sources) =>
      var available := AvailableAmong(c, sources);
      if available == [] then None else Some(available)
  }

  // ---------------------------------------------------------------------
  // value resolution

  /** What `getSourceValue` does short of recursing: answer with a value of
      this record, or hand over to a related record. */
  datatype Step = Local(value: Value) | Delegate(to: Record)

  /** The source `getSourceValue` reads: `default` stands for the default
      source. */
  function EffectiveSource(c: Ctx, source: Option<string>): Option<string> {
    if source == Some(SourceDefault) then DefaultSource(c) else source
  }

  /** `getSourceValue` on an effective source: nothing for an empty source or
      `none`; then the method scan, the field scan and the relation, in that
      order, a disabled scan answering null. */
  function StepFor(c: Ctx, s: Option<string>): Step {
    if s.None? || EmptyString(s.value) || s.value == SourceNone then Local(Null)
    else match MethodNameForSource(c, s.value)
      case Disabled => Local(Null)
      case Found(m) => Local(c.rec.methods[m])
      case NotFound =>
        match FieldNameForSource(c, s.value)
        case Disabled => Local(Null)
        case Found(f) => Local(c.rec.fields[f])
        case NotFound =>
          match SourceRelation(c, s)
          case Some(related) => Delegate(related)
          case None => Local(Null)
  }

  function SourceStep(c: Ctx, source: Option<string>): Step {
    StepFor(c, EffectiveSource(c, source))
  }

  /** The step `getValue()` takes: a disabled binding answers null, any other
      reads its source. */
  function ValueStep(c: Ctx): Step {
    if !IsEnabled(c) then Local(Null) else SourceStep(c, Source(c))
  }

  /** The result of a resolution given `fuel` relation hops; `OutOfFuel`
      stands for the unbounded recursion of the source. */
  datatype Outcome = Resolved(value: Value) | OutOfFuel

  /** Resolution by repeated steps, each hand-over binding a fresh resolver to
      the related record with the same field name. */
  function Run(step: Ctx -> Step, c: Ctx, fuel: nat): Outcome
    decreases fuel
  {
    match step(c)
    case Local(v) => Resolved(v)
    case Delegate(related) => if fuel == 0 then OutOfFuel else Run(step, Ctx(c.env, related, c.name), fuel - 1)
  }

  /** `getValue()`. */
  function GetValue(c: Ctx, fuel: nat): Outcome {
    Run(ValueStep, c, fuel)
  }

  /** `getSourceValue($source)`. */
  function SourceValue(c: Ctx, source: Option<string>, fuel: nat): Outcome {
    match SourceStep(c, source)
    case Local(v) => Resolved(v)
    case Delegate(related) => if fuel == 0 then OutOfFuel else GetValue(Ctx(c.env, related, c.name), fuel - 1)
  }

  /** `getValue()` on `c` hands over to `related`. */
  predicate DelegatesTo(c: Ctx, related: Record) {
    ValueStep(c) == Delegate(related)
  }

  // ---------------------------------------------------------------------
  // the loops of getForceSource and getAvailableSources

  /** The `foreach` of `getForceSource()` over a forced list. */
  method PickForced(c: Ctx, parts: seq<Value>) returns (force: Value)
    requires |parts| > 0
    ensures force == ChosenForced(c, parts)
  {
    force := parts[0];
    var i := 0;
    while i < |parts|
      invariant 0 <= i <= |parts|
      invariant force == parts[0]
      invariant FirstAvailable(c, parts) == FirstAvailable(c, parts[i..])
    {
      assert parts[i..][1..] == parts[i + 1..];
      if Usable(c, parts[i]) {
        force := parts[i];
        return;
      }
      i := i + 1;
    }
  }

  /** The `foreach` of `getAvailableSources()`. */
  method CollectAvailable(c: Ctx, sources: seq<Value>) returns (available: seq<Value>)
    ensures available == AvailableAmong(c, sources)
  {
    available := [];
    var i := 0;
    while i < |sources|
      invariant 0 <= i <= |sources|
      invariant available == AvailableAmong(c, sources[..i])
    {
      assert sources[..i + 1][..i] == sources[..i];
      if Usable(c, sources[i]) {
        available := available + [sources[i]];
      }
      i := i + 1;
    }
    assert sources[..|sources|] == sources;
  }

  // ---------------------------------------------------------------------
  // setFieldDefaults

  /** The record after `setFieldDefaults()`: the inherit toggle set to true
      and the source choice to `default`, each only where the record has the
      field. */
  function WithFieldDefaults(rec: Record, inheritName: Option<string>, sourceName: Option<string>): (r: Record)
    ensures r.methods == rec.methods && r.relations == rec.relations && r.config == rec.config
    ensures r.persisted == rec.persisted && r.extended == rec.extended
    ensures r.fields.Keys == rec.fields.Keys
    ensures HasField(rec, sourceName) ==> r.fields[sourceName.value] == Str(SourceDefault)
    ensures HasField(rec, inheritName) && inheritName != sourceName ==> r.fields[inheritName.value] == Bool(true)
    ensures forall k | k in rec.fields && Some(k) != inheritName && Some(k) != sourceName :: r.fields[k] == rec.fields[k]
  {
    var r1 := if HasField(rec, inheritName) then rec.(fields := rec.fields[inheritName.value := Bool(true)]) else rec;
    if HasField(r1, sourceName) then r1.(fields := r1.fields[sourceName.value := Str(SourceDefault)]) else r1
  }

  /** The binding after `setFieldDefaults()`. */
  function FieldDefaults(c: Ctx): Ctx {
    Ctx(c.env, WithFieldDefaults(c.rec, DoInheritFieldName(c), SourceFieldName(c)), c.name)
  }

  // ---------------------------------------------------------------------
  // properties of selection

  /** `FirstAvailable` finds the first usable entry, and nothing exactly when
      no entry is usable. */
  lemma {:induction false} FirstAvailableSpec(c: Ctx, parts: seq<Value>)
    ensures FirstAvailable(c, parts).None? <==> forall i | 0 <= i < |parts| :: !Usable(c, parts[i])
    ensures forall i | 0 <= i < |parts| && Usable(c, parts[i]) && (forall j | 0 <= j < i :: !Usable(c, parts[j])) ::
              FirstAvailable(c, parts) == Some(parts[i])
  {
    if parts != [] {
      var rest := parts[1..];
      FirstAvailableSpec(c, rest);
      forall i | 1 <= i < |parts| ensures parts[i] == rest[i - 1] { }
      if !Usable(c, parts[0]) {
        assert FirstAvailable(c, parts) == FirstAvailable(c, rest);
        assert (forall i | 0 <= i < |parts| :: !Usable(c, parts[i]))
           <==> (forall i | 0 <= i < |rest| :: !Usable(c, rest[i]));
        forall i | 0 <= i < |parts| && Usable(c, parts[i]) && (forall j | 0 <= j < i :: !Usable(c, parts[j]))
          ensures FirstAvailable(c, parts) == Some(parts[i])
        {
          assert i >= 1 && rest[i - 1] == parts[i];
          forall j | 0 <= j < i - 1 ensures !Usable(c, rest[j]) {
            assert rest[j] == parts[j + 1];
          }
        }
      }
    }
  }

  /** A forced list settles on its first available entry, and the source is
      then that entry and available. */
  lemma ForcedListPrefersAvailable(c: Ctx, i: nat)
    requires ConfigValue(c, "sources.force").Arr?
    requires i < |ConfigValue(c, "sources.force").entries|
    requires Usable(c, ConfigValue(c, "sources.force").entries[i].val)
    requires forall j | 0 <= j < i :: !Usable(c, ConfigValue(c, "sources.force").entries[j].val)
    ensures Source(c) == AsString(ConfigValue(c, "sources.force").entries[i].val)
    ensures IsSourceAvailable(c, Source(c))
  {
    var parts := Values(ConfigValue(c, "sources.force").entries);
    FirstAvailableSpec(c, parts);
    assert FirstAvailable(c, parts) == Some(parts[i]);
  }

  /** A forced list none of whose entries is available settles on its first
      entry all the same. */
  lemma ForcedListFallsBackToFirst(c: Ctx)
    requires ConfigValue(c, "sources.force").Arr? && ConfigValue(c, "sources.force").entries != []
    requires forall j | 0 <= j < |ConfigValue(c, "sources.force").entries| :: !Usable(c, ConfigValue(c, "sources.force").entries[j].val)
    ensures ForceSource(c) == AsString(ConfigValue(c, "sources.force").entries[0].val)
    ensures ForceSource(c).Some? ==> Source(c) == ForceSource(c)
  {
    var parts := Values(ConfigValue(c, "sources.force").entries);
    FirstAvailableSpec(c, parts);
  }

  /** A forced source, once there is one, is the source whatever else holds. */
  lemma ForceSourceWins(c: Ctx)
    requires ForceSource(c).Some?
    ensures Source(c) == ForceSource(c)
  {
  }

  /** A single non-empty forced string is the source, available or not. */
  lemma ForcedStringWins(c: Ctx)
    requires ConfigValue(c, "sources.force").Str? && !IsEmpty(ConfigValue(c, "sources.force"))
    ensures Source(c) == Some(ConfigValue(c, "sources.force").s)
  {
  }

  /** Without a forced source, the source is an available one or the default
      source: an inherited source is available by definition, and a selected
      source is kept only when available. */
  lemma UnforcedSourceIsAvailableOrDefault(c: Ctx)
    requires ForceSource(c).None?
    ensures IsSourceAvailable(c, Source(c)) || Source(c) == DefaultSource(c)
    ensures IsInherited(c) ==> Source(c) == InheritSource(c) && IsSourceAvailable(c, Source(c))
    ensures !IsInherited(c) && SelectedSource(c).Some? && IsSourceAvailable(c, SelectedSource(c))
            ==> Source(c) == SelectedSource(c)
    ensures !IsInherited(c) && (SelectedSource(c).None? || !IsSourceAvailable(c, SelectedSource(c)))
            ==> Source(c) == DefaultSource(c)
  {
  }

  /** An empty source reads as null: no source, `""` or `"0"`, and `default`
      when the default source is itself empty. */
  lemma EmptySourceIsNull(c: Ctx, s: string, fuel: nat)
    ensures SourceValue(c, None, fuel) == Resolved(Null)
    ensures EmptyString(s) ==> SourceValue(c, Some(s), fuel) == Resolved(Null)
    ensures DefaultSource(c).None? || EmptyString(DefaultSource(c).value) ==>
              SourceValue(c, Some(SourceDefault), fuel) == Resolved(Null)
  {
  }

  /** An empty stored choice is no choice: without a forced or inherited
      source, the default source is used. */
  lemma EmptyChoiceUsesDefault(c: Ctx)
    requires ForceSource(c).None? && !IsInherited(c) && IsEmpty(FieldOf(c.rec, SourceFieldName(c)))
    ensures SelectedSource(c).None? && Source(c) == DefaultSource(c)
  {
  }

  /** `none` and `default` are always available; `none` resolves to null and
      `default` resolves as the default source does. */
  lemma NoneAndDefaultSources(c: Ctx, fuel: nat)
    ensures IsSourceAvailable(c, Some(SourceNone)) && IsSourceAvailable(c, Some(SourceDefault))
    ensures SourceValue(c, Some(SourceNone), fuel) == Resolved(Null)
    ensures SourceValue(c, Some(SourceDefault), fuel) == SourceValue(c, DefaultSource(c), fuel)
  {
  }

  /** Appending to the list appends the usable entries of the addition: the
      filter keeps the list's order. */
  lemma {:induction false} AvailableAmongAppend(c: Ctx, a: seq<Value>, b: seq<Value>)
    ensures AvailableAmong(c, a + b) == AvailableAmong(c, a) + AvailableAmong(c, b)
    decreases |b|
  {
    if b == [] {
      assert a + b == a;
    } else {
      var init := b[..|b| - 1];
      AvailableAmongAppend(c, a, init);
      assert (a + b)[..|a + b| - 1] == a + init;
    }
  }

  /** The available sources are exactly the usable entries of the list. */
  lemma {:induction false} AvailableAmongMembers(c: Ctx, sources: seq<Value>)
    ensures forall v :: v in AvailableAmong(c, sources) <==> v in sources && Usable(c, v)
    ensures |AvailableAmong(c, sources)| <= |sources|
  {
    if sources != [] {
      var init := sources[..|sources| - 1];
      AvailableAmongMembers(c, init);
      assert sources == init + [sources[|sources| - 1]];
    }
  }

  /** `getAvailableSources()` lists exactly the available select sources,
      and is null when there are none. */
  lemma AvailableSourcesSpec(c: Ctx)
    ensures AvailableSources(c).Some? ==>
              SelectSources(c).Some?
              && forall v :: v in AvailableSources(c).value <==> v in SelectSources(c).value && Usable(c, v)
    ensures AvailableSources(c).None? <==>
              SelectSources(c).None? || forall v | v in SelectSources(c).value :: !Usable(c, v)
  {
    if SelectSources(c).Some? {
      var sources := SelectSources(c).value;
      AvailableAmongMembers(c, sources);
      var available := AvailableAmong(c, sources);
      if available != [] {
        assert available[0] in available;
      }
    }
  }

  /** A single entry is offered exactly when it is available. */
  lemma AvailableAmongSingle(c: Ctx, v: Value)
    ensures AvailableAmong(c, [v]) == if Usable(c, v) then [v] else []
  {
    assert [v][..0] == [];
  }

  /** A `false` select list offers nothing; a string offers itself when it
      is available. */
  lemma SelectListForms(c: Ctx)
    ensures ConfigValue(c, "sources.select") == Bool(false) ==> AvailableSources(c).None?
    ensures ConfigValue(c, "sources.select").Str? ==>
              AvailableSources(c) == if Usable(c, ConfigValue(c, "sources.select")) then Some([ConfigValue(c, "sources.select")]) else None
  {
    AvailableAmongSingle(c, ConfigValue(c, "sources.select"));
  }

  // ---------------------------------------------------------------------
  // availability against resolution

  /** A candidate list without `false` never disables a scan. */
  lemma {:induction false} NoFalseNeverDisabled(kind: BindingKind, cands: seq<Value>, rec: Record)
    requires Bool(false) !in cands
    ensures ScanCandidates(kind, cands, rec) != Disabled
  {
    if cands != [] {
      assert cands[0] in cands;
      assert forall v | v in cands[1..] :: v in cands;
      NoFalseNeverDisabled(kind, cands[1..], rec);
    }
  }

  /** An empty source is unavailable; then a field scan that stops decides
      availability as "not false", and after it a method scan that stops. */
  lemma ValueBindingAvailability(c: Ctx, s: string)
    requires s != SourceNone && s != SourceDefault
    ensures EmptyString(s) ==> !IsSourceAvailable(c, Some(s))
    ensures !EmptyString(s) && FieldNameForSource(c, s) != NotFound ==>
              (IsSourceAvailable(c, Some(s)) <==> FieldNameForSource(c, s).Found?)
    ensures !EmptyString(s) && FieldNameForSource(c, s).NotFound? && MethodNameForSource(c, s) != NotFound ==>
              (IsSourceAvailable(c, Some(s)) <==> MethodNameForSource(c, s).Found?)
  {
  }

  /** When a source's `values` candidates hold no `false`, a source that
      resolution reads from a method or field of the record is available. */
  lemma LocalReadIsAvailable(c: Ctx, s: string)
    requires !EmptyString(s) && s != SourceNone && s != SourceDefault
    requires Bool(false) !in CandidateList(ConfigValue(c, "values"), s)
    requires MethodNameForSource(c, s).Found? || FieldNameForSource(c, s).Found?
    ensures IsSourceAvailable(c, Some(s))
  {
    NoFalseNeverDisabled(FieldBinding, CandidateList(ConfigValue(c, "values"), s), c.rec);
    NoFalseNeverDisabled(MethodBinding, CandidateList(ConfigValue(c, "values"), s), c.rec);
  }

  /** Availability runs the field scan before the method scan, resolution the
      method scan first: when the method scan finds a method but the field
      scan meets `false` first, the source is unavailable although it
      resolves to the method's value. */
  lemma AvailabilityDisagreesWithResolution(c: Ctx, s: string, m: string, fuel: nat)
    requires !EmptyString(s) && s != SourceNone && s != SourceDefault
    requires MethodNameForSource(c, s) == Found(m) && FieldNameForSource(c, s) == Disabled
    ensures m in c.rec.methods
    ensures !IsSourceAvailable(c, Some(s))
    ensures SourceValue(c, Some(s), fuel) == Resolved(c.rec.methods[m])
  {
  }

  /** Such candidate lists exist: `['->Foo', false]` on a record with a
      method `Foo` and no fields. */
  lemma ScanOrderWitness()
    ensures var rec := Record(map[], map["Foo" := Str("x")], map[], true, true, Null);
            var cands := [Str("->Foo"), Bool(false)];
            ScanCandidates(MethodBinding, cands, rec) == Found("Foo")
            && ScanCandidates(FieldBinding, cands, rec) == Disabled
  {
    var rec := Record(map[], map["Foo" := Str("x")], map[], true, true, Null);
    var cands := [Str("->Foo"), Bool(false)];
    assert "->Foo"[2..] == "Foo";
    assert Match(FieldBinding, cands[0], rec).None?;
    assert cands[1..] == [Bool(false)];
  }

  // ---------------------------------------------------------------------
  // the relation, the required relation and the order of getSourceValue

  /** `getSourceRelation($source)`: a disabled scan gives nothing; a relation
      method's result is taken as it is, unchecked; a named relation gives its
      record only when that record exists; with neither, `site` falls back to
      the fallback site and anything else gives nothing. */
  lemma SourceRelationSpec(c: Ctx, s: string)
    requires !EmptyString(s)
    ensures RelationMethodNameForSource(c, s).Disabled? ==> SourceRelation(c, Some(s)).None?
    ensures RelationMethodNameForSource(c, s).Found? ==>
              var m := RelationMethodNameForSource(c, s).name;
              m in c.rec.methods && SourceRelation(c, Some(s)) == RecordOf(c.env, c.rec.methods[m])
    ensures RelationMethodNameForSource(c, s).NotFound? && RelationNameForSource(c, s).Disabled? ==>
              SourceRelation(c, Some(s)).None?
    ensures RelationMethodNameForSource(c, s).NotFound? && RelationNameForSource(c, s).Found? ==>
              var r := RelationNameForSource(c, s).name;
              r in c.rec.relations
              && (SourceRelation(c, Some(s)).Some? <==> RelatedRecord(c.env, c.rec, r).Some? && RelatedRecord(c.env, c.rec, r).value.persisted)
              && (SourceRelation(c, Some(s)).Some? ==> SourceRelation(c, Some(s)) == RelatedRecord(c.env, c.rec, r))
    ensures RelationMethodNameForSource(c, s).NotFound? && RelationNameForSource(c, s).NotFound? ==>
              SourceRelation(c, Some(s)) == if s == SourceSite then FallbackSite(c.env, c.rec) else None
  {
  }

  /** `getSourceValue($source)` tries the method scan, then the field scan,
      then the relation: the first scan that finds a name decides, a disabled
      scan gives null, and a relation hands the same field name over to the
      related record. */
  lemma SourceValueOrder(c: Ctx, s: string, fuel: nat)
    requires !EmptyString(s) && s != SourceNone && s != SourceDefault
    ensures MethodNameForSource(c, s).Disabled? ==> SourceValue(c, Some(s), fuel) == Resolved(Null)
    ensures MethodNameForSource(c, s).Found? ==>
              var m := MethodNameForSource(c, s).name;
              m in c.rec.methods && SourceValue(c, Some(s), fuel) == Resolved(c.rec.methods[m])
    ensures MethodNameForSource(c, s).NotFound? && FieldNameForSource(c, s).Disabled? ==>
              SourceValue(c, Some(s), fuel) == Resolved(Null)
    ensures MethodNameForSource(c, s).NotFound? && FieldNameForSource(c, s).Found? ==>
              var f := FieldNameForSource(c, s).name;
              f in c.rec.fields && SourceValue(c, Some(s), fuel) == Resolved(c.rec.fields[f])
    ensures MethodNameForSource(c, s).NotFound? && FieldNameForSource(c, s).NotFound? ==>
              SourceValue(c, Some(s), fuel)
              == match SourceRelation(c, Some(s))
                 case None => Resolved(Null)
                 case Some(related) => if fuel == 0 then OutOfFuel else GetValue(Ctx(c.env, related, c.name), fuel - 1)
  {
    assert EffectiveSource(c, Some(s)) == Some(s);
  }

  /** A source listed in `relations.{require}`, with no `values` candidate
      deciding first, is available exactly when its relation gives a record. */
  lemma RequiredRelationAvailability(c: Ctx, s: string)
    requires !EmptyString(s) && s != SourceNone && s != SourceDefault
    requires IsSourceRelationRequired(c, s)
    requires FieldNameForSource(c, s).NotFound? && MethodNameForSource(c, s).NotFound?
    ensures IsSourceAvailable(c, Some(s)) <==> SourceRelation(c, Some(s)).Some?
  {
  }

  /** Without a required relation, a relation scan that finds a name makes the
      source available, whether or not the relation has a record; `site` with
      no candidate at all is available exactly when there is a fallback site. */
  lemma UnrequiredRelationAvailability(c: Ctx, s: string)
    requires !EmptyString(s) && s != SourceNone && s != SourceDefault
    requires !IsSourceRelationRequired(c, s)
    requires FieldNameForSource(c, s).NotFound? && MethodNameForSource(c, s).NotFound?
    ensures RelationNameForSource(c, s) != NotFound ==> (IsSourceAvailable(c, Some(s)) <==> RelationNameForSource(c, s).Found?)
    ensures RelationNameForSource(c, s).NotFound? && RelationMethodNameForSource(c, s) != NotFound ==>
              (IsSourceAvailable(c, Some(s)) <==> RelationMethodNameForSource(c, s).Found?)
    ensures RelationNameForSource(c, s).NotFound? && RelationMethodNameForSource(c, s).NotFound? ==>
              (IsSourceAvailable(c, Some(s)) <==> s == SourceSite && FallbackSite(c.env, c.rec).Some?)
  {
  }

  /** `isSourceRelationRequired($source)`: a non-empty string lists itself
      only, an array lists its values, and anything empty (`""` and `"0"`
      among them) lists nothing. */
  lemma RequiredRelationSpec(required: Value, s: string)
    ensures IsEmpty(required) ==> !Lists(required, s)
    ensures required.Str? ==> (Lists(required, s) <==> !EmptyString(s) && required.s == s)
    ensures required.Arr? && Str(s) in Values(required.entries) ==> Lists(required, s)
    ensures required.Arr? && Lists(required, s) ==> exists v | v in Values(required.entries) :: LooseEquals(v, s)
    ensures required.Arr? && required.entries != [] ==>
              (Lists(required, s) <==> exists v | v in Values(required.entries) :: LooseEquals(v, s))
  {
    if required.Arr? && Str(s) in Values(required.entries) {
      var i :| 0 <= i < |required.entries| && Values(required.entries)[i] == Str(s);
      assert LooseEquals(required.entries[i].val, s);
    }
    if required.Arr? && Lists(required, s) && !IsEmpty(required) {
      var i :| 0 <= i < |required.entries| && LooseEquals(required.entries[i].val, s);
      assert Values(required.entries)[i] == required.entries[i].val;
    }
    if required.Arr? && required.entries != [] && exists v | v in Values(required.entries) :: LooseEquals(v, s) {
      var v :| v in Values(required.entries) && LooseEquals(v, s);
      var i :| 0 <= i < |required.entries| && Values(required.entries)[i] == v;
      assert LooseEquals(required.entries[i].val, s);
    }
  }

  // ---------------------------------------------------------------------
  // relation delegation

  /** `getValue()` is null for a disabled binding and otherwise the value of
      its source. */
  lemma GetValueReadsSource(c: Ctx, fuel: nat)
    ensures GetValue(c, fuel) == if !IsEnabled(c) then Resolved(Null) else SourceValue(c, Source(c), fuel)
  {
  }

  /** More fuel never changes a finished resolution, whatever the step. */
  lemma {:induction false} RunFuelMonotone(step: Ctx -> Step, c: Ctx, f: nat, g: nat)
    requires f <= g && Run(step, c, f).Resolved?
    ensures Run(step, c, g) == Run(step, c, f)
    decreases f
  {
    match step(c)
    case Local(_) =>
    case Delegate(related) =>
      RunFuelMonotone(step, Ctx(c.env, related, c.name), f - 1, g - 1);
  }

  lemma GetValueFuelMonotone(c: Ctx, f: nat, g: nat)
    requires f <= g && GetValue(c, f).Resolved?
    ensures GetValue(c, g) == GetValue(c, f)
  {
    RunFuelMonotone(ValueStep, c, f, g);
  }

  /** Along a chain of records each handing over to the next, the first
      resolves, one hop per record, to what the last resolves to. */
  lemma {:induction false} RunChain(step: Ctx -> Step, env: Env, recs: seq<Record>, name: string, fuel: nat)
    requires |recs| >= 1
    requires forall i | 0 <= i < |recs| - 1 :: step(Ctx(env, recs[i], name)) == Delegate(recs[i + 1])
    ensures Run(step, Ctx(env, recs[0], name), fuel + |recs| - 1) == Run(step, Ctx(env, recs[|recs| - 1], name), fuel)
    decreases |recs|
  {
    if |recs| > 1 {
      var rest := recs[1..];
      forall i | 0 <= i < |rest| - 1 ensures step(Ctx(env, rest[i], name)) == Delegate(rest[i + 1]) {
        assert rest[i] == recs[i + 1] && rest[i + 1] == recs[i + 2];
      }
      RunChain(step, env, rest, name, fuel);
      assert step(Ctx(env, recs[0], name)) == Delegate(recs[1]);
    }
  }

  lemma DelegationChain(env: Env, recs: seq<Record>, name: string, fuel: nat)
    requires |recs| >= 1
    requires forall i | 0 <= i < |recs| - 1 :: DelegatesTo(Ctx(env, recs[i], name), recs[i + 1])
    ensures GetValue(Ctx(env, recs[0], name), fuel + |recs| - 1) == GetValue(Ctx(env, recs[|recs| - 1], name), fuel)
  {
    RunChain(ValueStep, env, recs, name, fuel);
  }

  /** Nothing stops a cycle of records handing over to each other:
      resolution on any of them never finishes, whatever the fuel. */
  lemma {:induction false} RunCycle(step: Ctx -> Step, env: Env, recs: seq<Record>, name: string, k: nat, fuel: nat)
    requires k < |recs|
    requires forall i | 0 <= i < |recs| :: step(Ctx(env, recs[i], name)) == Delegate(recs[(i + 1) % |recs|])
    ensures Run(step, Ctx(env, recs[k], name), fuel) == OutOfFuel
    decreases fuel
  {
    assert step(Ctx(env, recs[k], name)) == Delegate(recs[(k + 1) % |recs|]);
    if fuel > 0 {
      RunCycle(step, env, recs, name, (k + 1) % |recs|, fuel - 1);
    }
  }

  lemma CycleNeverResolves(env: Env, recs: seq<Record>, name: string, k: nat, fuel: nat)
    requires k < |recs|
    requires forall i | 0 <= i < |recs| :: DelegatesTo(Ctx(env, recs[i], name), recs[(i + 1) % |recs|])
    ensures GetValue(Ctx(env, recs[k], name), fuel) == OutOfFuel
  {
    RunCycle(ValueStep, env, recs, name, k, fuel);
  }

  // ---------------------------------------------------------------------
  // field defaults

  /** `setFieldDefaults()` changes neither the configuration nor the names of
      the two fields it writes. */
  lemma FieldDefaultsKeepConfig(c: Ctx)
    ensures ConfigOf(FieldDefaults(c)) == ConfigOf(c)
    ensures SourceFieldName(FieldDefaults(c)) == SourceFieldName(c)
    ensures DoInheritFieldName(FieldDefaults(c)) == DoInheritFieldName(c)
  {
    assert ConfigOf(FieldDefaults(c)) == ConfigOf(c);
  }

  /** A stored choice of `default` reads as no choice. */
  lemma DefaultChoiceIsNoChoice(d: Ctx)
    requires HasField(d.rec, SourceFieldName(d)) && d.rec.fields[SourceFieldName(d).value] == Str(SourceDefault)
    ensures SelectedSource(d).None?
  {
  }

  /** A set toggle makes inheritance depend on inheritability alone. */
  lemma SetToggleInherits(d: Ctx)
    requires HasField(d.rec, DoInheritFieldName(d)) && !IsEmpty(d.rec.fields[DoInheritFieldName(d).value])
    ensures IsInherited(d) <==> IsInheritable(d)
  {
  }

  /** With no stored choice and the toggle deciding nothing, the source is the
      forced one, else the inherited one, else the default one. */
  lemma SourceWithoutChoice(d: Ctx)
    requires SelectedSource(d).None? && (IsInherited(d) <==> IsInheritable(d))
    ensures Source(d) == (if ForceSource(d).Some? then ForceSource(d)
                          else if IsInheritable(d) then InheritSource(d)
                          else DefaultSource(d))
  {
  }

  /** After `setFieldDefaults()` the configuration is unchanged, the stored
      choice reads as null and inheritance is on wherever it is possible; the
      source is then the forced one, the inherited one, or the default one. */
  lemma FieldDefaultsEffect(c: Ctx)
    ensures var d := FieldDefaults(c);
            ConfigOf(d) == ConfigOf(c)
    ensures var d := FieldDefaults(c);
            HasField(c.rec, SourceFieldName(c)) ==> SelectedSource(d).None?
    ensures var d := FieldDefaults(c);
            HasField(c.rec, DoInheritFieldName(c)) ==> (IsInherited(d) <==> IsInheritable(d))
    ensures var d := FieldDefaults(c);
            HasField(c.rec, DoInheritFieldName(c)) && HasField(c.rec, SourceFieldName(c)) ==>
              Source(d) == (if ForceSource(d).Some? then ForceSource(d)
                            else if IsInheritable(d) then InheritSource(d)
                            else DefaultSource(d))
  {
    FieldDefaultsKeepConfig(c);
    if HasField(c.rec, SourceFieldName(c)) {
      FieldDefaultsChoice(c);
    }
    if HasField(c.rec, DoInheritFieldName(c)) {
      FieldDefaultsToggle(c);
    }
    if HasField(c.rec, DoInheritFieldName(c)) && HasField(c.rec, SourceFieldName(c)) {
      SourceWithoutChoice(FieldDefaults(c));
    }
  }

  lemma FieldDefaultsChoice(c: Ctx)
    requires HasField(c.rec, SourceFieldName(c))
    ensures SelectedSource(FieldDefaults(c)).None?
  {
    FieldDefaultsKeepConfig(c);
    DefaultChoiceIsNoChoice(FieldDefaults(c));
  }

  lemma FieldDefaultsToggle(c: Ctx)
    requires HasField(c.rec, DoInheritFieldName(c))
    ensures IsInherited(FieldDefaults(c)) <==> IsInheritable(FieldDefaults(c))
  {
    var d := FieldDefaults(c);
    FieldDefaultsKeepConfig(c);
    DefaultsSetToggle(c.rec, DoInheritFieldName(c), SourceFieldName(c));
    SetToggleInherits(d);
  }

  /** The toggle field, where the record has it, holds a non-empty value
      afterwards: true, or `default` when it is the choice field too. */
  lemma DefaultsSetToggle(rec: Record, inheritName: Option<string>, sourceName: Option<string>)
    requires HasField(rec, inheritName)
    ensures HasField(WithFieldDefaults(rec, inheritName, sourceName), inheritName)
    ensures !IsEmpty(WithFieldDefaults(rec, inheritName, sourceName).fields[inheritName.value])
  {
    if inheritName == sourceName {
      assert WithFieldDefaults(rec, inheritName, sourceName).fields[inheritName.value] == Str(SourceDefault);
    }
  }
}
