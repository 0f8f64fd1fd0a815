/** The host content record the resolver is bound to, reduced to what the
    resolver asks of it, and the global state it consults: the record store,
    the resolver's own `default_config`, and what the fallback site lookup
    needs. */
module Host {
  import opened Php

  type RecordId = nat

  /** A data object. `methods` maps each name `hasMethod` accepts to what a
      call with no arguments returns (treated as an opaque value; an `Obj`
      result is a record). `relations` holds the declared has-one relations
      (`getRelationType` is non-null exactly for these) with the id their
      accessor yields, if any. */
  datatype Record = Record(
    fields: map<string, Value>,
    methods: map<string, Value>,
    relations: map<string, Option<RecordId>>,
    persisted: bool,
    extended: bool,
    config: Value)

  /** `template` is the resolver's `default_config`; `multisites` says whether
      a multisites module is installed; `siteConfig` is the current
      `SiteConfig` record. */
  datatype Env = Env(
    db: map<RecordId, Record>,
    template: seq<Entry>,
    multisites: bool,
    siteConfig: Option<RecordId>)

  /** `$dObj->getField($name)`: null for a field the record does not have. */
  function GetField(rec: Record, name: string): Value {
    if name in rec.fields then rec.fields[name] else Null
  }

  /** The record an object value stands for, if it is one of the store. */
  function RecordOf(env: Env, v: Value): Option<Record> {
    if v.Obj? && v.id in env.db then Some(env.db[v.id]) else None
  }

  /** `$dObj->{$relation}()` for a declared has-one relation. */
  function RelatedRecord(env: Env, rec: Record, relation: string): Option<Record>
    requires relation in rec.relations
  {
    match rec.relations[relation]
    case Some(id) => if id in env.db then Some(env.db[id]) else None
    case None => None
  }

  /** `getFallbackSite()`: with a multisites module, the record's own `Site`
      relation; otherwise the current site configuration. Either is accepted
      only when it exists and carries the resourceful extension. */
  function FallbackSite(env: Env, rec: Record): (site: Option<Record>)
    ensures site.Some? ==> site.value.persisted && site.value.extended
    ensures site.Some? && !env.multisites ==> env.siteConfig.Some? && env.siteConfig.value in env.db
                                              && site.value == env.db[env.siteConfig.value]
    ensures site.Some? && env.multisites ==> "Site" in rec.relations && site == RelatedRecord(env, rec, "Site")
  {
    var candidate :=
      if env.multisites then
        (if "Site" in rec.relations then RelatedRecord(env, rec, "Site") else None)
      else
        (if env.siteConfig.Some? && env.siteConfig.value in env.db then Some(env.db[env.siteConfig.value]) else None);
    if candidate.Some? && candidate.value.persisted && candidate.value.extended then candidate else None
  }
}
