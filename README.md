# Resourceful source resolution, in Dafny

This project models the source-resolution engine of the SilverStripe module
`silverstripe-resourceful` (class `Resourceful`) and proves properties of it.

A resolver is bound to one data object (a *record*) and one field name. It
builds that field's configuration as follows:

- it takes the class's `default_config`;
- it puts the field name in place of `{field_name}`;
- it merges in the record class's own `resourceful` entry for the name;
- it expands `a|b` strings into lists;
- it caches the result per name.

From that configuration the resolver decides which *source* supplies the
field's value. A source is `local`, `parent`, `site`, `default`, `none`, or a
name the configuration defines. A forced source comes first, then an
inherited one, then the record's stored choice, then the default. The value
is read from a host method, from a host field, or by resolving the same
field name on a related record.

Layout, one module per file:

| file | module | what it holds |
|---|---|---|
| `php.dfy` | `Php` | PHP values, ordered arrays with key normalisation, and the PHP behaviours the code relies on: `empty()`, `?string` coercion, loose `==`, `explode`/`implode`, `str_replace` and `array_merge` |
| `host.dfy` | `Host` | the record as the resolver sees it: fields, methods with their results, has-one relations, whether it exists, whether it carries the extension, and its class configuration; the global state (record store, `default_config`, multisites flag, current site configuration); `getFallbackSite` |
| `config.dfy` | `Config` | `getDefaultConfigData`, `mergeWithDefaultConfigData` and `getConfigData` as functions, and the dotted-path `getConfigValue` |
| `scans.dfy` | `Scans` | the four candidate scans, as one scan over three kinds of binding |
| `resolution.dfy` | `Resolution` | availability, forced, inherited, selected and default sources, inheritance, available sources, value resolution through relations, and `setFieldDefaults` on a record |
| `resourceful.dfy` | `Resolver` | the `Resourceful` class: its fields `dataObject`, `name` and `namedConfigs`, its configuration cache, and the loops of the source |

Configuration values are a tagged type: null, boolean, string, ordered array
of key/value entries, or object (a record id). A PHP array is a sequence of
entries. A numeric-string key is normalised to an integer key, as PHP does.

Relation delegation is bounded by a `fuel` argument. Resolution that needs
more hops gives `OutOfFuel`, because the source has no cycle guard.
`CycleNeverResolves` proves that a cycle of delegating records never
resolves.

## Model

| member | source | states |
|---|---|---|
| Php.NormKey | src/Resourceful.php:141 | a key that stays a string key is the string itself |
| Php.NormKeyIntegers | src/Resourceful.php:141 | as `$a[$s]` does: a canonical decimal string (`0`, or digits with no leading zero) addresses the integer key of its value, and the same with a minus sign (not `-0`) the negated one. The key is an integer exactly in those cases |
| Php.Find | src/Resourceful.php:141 | a lookup finds nothing exactly when no entry carries the key |
| Php.Put | src/Resourceful.php:197-204 | after `$a[$k] = $v` the key holds `$v` and every other key reads as before |
| Php.Split | src/Resourceful.php:150-159 | `explode` gives at least one piece and no piece holds the delimiter |
| Php.JoinSplit | src/Resourceful.php:220-226 | `implode` of `explode` gives back the original string |
| Php.SplitJoin | src/Resourceful.php:220-226 | `explode` of `implode` of delimiter-free pieces gives back the pieces |
| Php.ReplaceSkips | src/Resourceful.php:173 | `str_replace` copies a prefix in which no occurrence can start |
| Php.ReplaceLeading | src/Resourceful.php:173 | a leading occurrence becomes the replacement, and the rest is processed after it |
| Php.ArrayMergeLists | src/Resourceful.php:197 | `array_merge` keeps the list entries of both arrays, first array first, in order |
| Php.ArrayMergeStringKeys | src/Resourceful.php:197 | on string keys `array_merge` takes the second array's entry, else the first's |
| Config.PlainText | src/Resourceful.php:173 | text without a placeholder is left unchanged by the substitution |
| Config.PlaceholderAfter | src/Resourceful.php:173 | a placeholder after plain text becomes the field name |
| Config.StockValueNames | src/Resourceful.php:37-58 | the shipped `values` strings become `->{name}_Local\|{name}_Local`, `{name}_DoInherit` and `{name}_Source` for every field name |
| Config.StockSections | src/Resourceful.php:37-58 | the shipped defaults hold the `values` and `relations` arrays, the latter with distinct keys |
| Config.StockValues | src/Resourceful.php:37-58 | the shipped defaults, after substitution, give the local method and field candidates and the toggle and choice field names built from the field name |
| Config.KeptRelationsFind | src/Resourceful.php:176-183 | after the unset and re-add loop, a `relations` key holds its substituted default; a `local` entry stays only if the host declares that relation |
| Config.DefaultConfigDataShape | src/Resourceful.php:167-185 | the defaults keep the template's keys; `values` holds each entry substituted; `relations` is as `KeptRelationsFind` says |
| Config.PutExistingKeepsKeys | src/Resourceful.php:174 | writing an existing key keeps the array's keys and their order |
| Config.MergeShape | src/Resourceful.php:187-209 | the merge has one entry per default key, in default order. Arrays on both sides are `array_merge`d. A set named value replaces the default. An unset one keeps the default. Named-only keys are dropped |
| Config.MergedArraysPreferNamed | src/Resourceful.php:193-196 | inside a merged array, a named entry wins over the default entry with the same key |
| Config.NormaliseIsPipeFree | src/Resourceful.php:147-161 | after expansion no top-level or second-level string holds `\|` |
| Config.NormaliseSplitsInOrder | src/Resourceful.php:157-159 | a top-level `a\|b` string becomes the list of its pieces, which join back to the string |
| Config.NormaliseSplitsNestedInOrder | src/Resourceful.php:149-155 | a `a\|b` string inside a top-level array becomes, under the same key, the list of its pieces, which join back to the string |
| Config.NormaliseFixesPipeFree | src/Resourceful.php:147-161 | expansion leaves a configuration without `\|` unchanged |
| Config.NormaliseIdempotent | src/Resourceful.php:147-161 | expanding twice is expanding once |
| Config.ConfigDataShape | src/Resourceful.php:130-165 | the configuration exists exactly when the class's entry for the name is an array. It is then the expanded merge: the template's keys, no `\|` at the first two levels |
| Config.FirstIndexOf | src/Resourceful.php:222-225 | the key is cut at its first `.` |
| Config.GetConfigValue | src/Resourceful.php:211-243 | the result is null, a literal `false`, or non-empty: every other empty value reads as null |
| Config.GetConfigValuePlain | src/Resourceful.php:228-242 | a non-empty value under a plain key comes back as it is, except that a string holding `\|` becomes the list of its pieces |
| Config.GetConfigValueKeepsFalse | src/Resourceful.php:228-242 | a literal `false` under a plain key comes back as `false`, not null |
| Config.GetConfigValueEmptyIsNull | src/Resourceful.php:213-218 | a missing configuration or an empty key reads as null. So does a missing or empty value under a plain key (without `.`), unless it is `false` |
| Config.GetConfigValueDottedEmptyHead | src/Resourceful.php:220-242 | a dotted key `head.rest` whose head holds an empty value stops there: `false` comes back as `false` (so `sources.force` under `'sources' => false` reads `false`), any other empty value as null |
| Config.GetConfigValueDescends | src/Resourceful.php:220-237 | when `head` holds a non-empty value and `rest` is not empty, `head.rest` looks `rest` up inside that value if it is an array, and is null if it is not. Empty heads are covered by `GetConfigValueDottedEmptyHead` |
| Config.FirstDot | src/Resourceful.php:222-225 | a key `head.rest` with no dot in `head` splits into `head` and `rest` |
| Host.FallbackSite | src/Resourceful.php:457-476 | the fallback site is accepted only when it exists and has the extension. With multisites it is the record's `Site` relation, otherwise the current site configuration |
| Scans.Match | src/Resourceful.php:479-568 | a candidate binds a name exactly when it has the scanned form and the host backs the name. A method candidate binds the name after `->`; a field or relation candidate binds itself |
| Scans.ScanCandidates | src/Resourceful.php:479-568 | a found name is a host method, a host field that is not a relation, or a declared relation, according to the scan |
| Scans.FirstBackedCandidateIsFound | src/Resourceful.php:486-498 | the first candidate of the scanned form that the host backs is found: the name after `->` for a method scan, the candidate itself otherwise. This holds when no earlier candidate is `false` or matches |
| Scans.FirstStopDecides | src/Resourceful.php:479-568 | the first match or `false` in the candidate list decides the scan; with neither, the scan finds nothing |
| Scans.ScanLoop | src/Resourceful.php:485-498 | the scan loop, which stops at a match or at `false`, computes the scan |
| Resolution.PickForced | src/Resourceful.php:345-353 | the forced-list loop returns the first available entry, else the first entry |
| Resolution.CollectAvailable | src/Resourceful.php:606-617 | the available-sources loop keeps exactly the filtered list |
| Resolution.WithFieldDefaults | src/Resourceful.php:116-127 | only the toggle field (set to true) and the choice field (set to `default`) change, each only if the record has it |
| Resolution.FirstAvailableSpec | src/Resourceful.php:345-353 | the first available entry is found, and nothing is found exactly when no entry is available |
| Resolution.ForcedListPrefersAvailable | src/Resourceful.php:267-283 | with a forced list, the source is its first available entry, and that source is available |
| Resolution.ForcedListFallsBackToFirst | src/Resourceful.php:339-356 | a forced list with no available entry settles on its first entry, read as a string. That entry is then the source when it reads as a string; a null or array entry gives no forced source, and `getSource` goes on to the inherited, stored or default source |
| Resolution.ForceSourceWins | src/Resourceful.php:269-270 | a forced source, once there is one, is the source regardless of inheritance, stored choice or availability |
| Resolution.ForcedStringWins | src/Resourceful.php:341-355 | a single non-empty forced string is the source, available or not |
| Resolution.UnforcedSourceIsAvailableOrDefault | src/Resourceful.php:267-283 | without a forced source: an inherited source is used and is available. Otherwise an available stored choice is used. Otherwise, when there is no stored choice or it is unavailable, the default source is used |
| Resolution.NoneAndDefaultSources | src/Resourceful.php:382-392 | `none` and `default` are always available (lines 576-578); `none` resolves to null; `default` resolves as the default source |
| Resolution.EmptySourceIsNull | src/Resourceful.php:382-388 | no source, `""` and `"0"` resolve to null, and so does `default` when the default source is itself null or empty |
| Resolution.EmptyChoiceUsesDefault | src/Resourceful.php:374-377 | an empty stored choice reads as no choice, so without a forced or inherited source `getSource` uses the default source (lines 276-279) |
| Resolution.AvailableAmongAppend | src/Resourceful.php:608-614 | filtering keeps the configured order |
| Resolution.AvailableAmongMembers | src/Resourceful.php:608-614 | the available sources are exactly the available select entries |
| Resolution.AvailableSourcesSpec | src/Resourceful.php:606-617 | `getAvailableSources` lists exactly the available select sources, and is null exactly when the list is null or none is available |
| Resolution.AvailableAmongSingle | src/Resourceful.php:608-614 | a one-entry list offers its entry exactly when it is available |
| Resolution.SelectListForms | src/Resourceful.php:358-368 | a `false` select list offers nothing; a string offers itself when it is available |
| Resolution.NoFalseNeverDisabled | src/Resourceful.php:479-568 | a candidate list without `false` never disables a scan |
| Resolution.ValueBindingAvailability | src/Resourceful.php:573-586 | an empty source (`""` or `"0"`) is unavailable. Otherwise a field scan that stops decides: available exactly when it found a field, so an explicit `false` makes the source unavailable. Failing that, a method scan that stops decides in the same way |
| Resolution.LocalReadIsAvailable | src/Resourceful.php:571-587 | when the `values` candidates hold no `false`, a source read from a host method or field is available |
| Resolution.AvailabilityDisagreesWithResolution | src/Resourceful.php:579-587 | availability runs the field scan first, resolution the method scan. A source whose method scan finds a method but whose field scan meets `false` is unavailable, yet resolves to the method's value |
| Resolution.ScanOrderWitness | src/Resourceful.php:479-523 | `['->Foo', false]` on a record with method `Foo` is such a candidate list |
| Resolution.SourceRelationSpec | src/Resourceful.php:425-455 | a disabled relation scan gives no record. A relation method's result is taken unchecked. A named relation gives its record exactly when that record exists. With neither scan matching, `site` gives the fallback site and any other source nothing |
| Resolution.SourceValueOrder | src/Resourceful.php:394-422 | `getSourceValue` tries the method scan, then the field scan, then the relation. A disabled scan gives null. A found method or field gives its value. A relation hands the same field name to the related record, one hop of fuel; no relation gives null |
| Resolution.RequiredRelationAvailability | src/Resourceful.php:579-593 | a required source that no `values` candidate decides is available exactly when its relation gives a record |
| Resolution.UnrequiredRelationAvailability | src/Resourceful.php:579-602 | otherwise a relation-name scan that stops decides, then a relation-method scan that stops: either is available exactly when it found a name, record or not. With no candidate at all, only `site` with a fallback site is available |
| Resolution.RequiredRelationSpec | src/Resourceful.php:619-629 | a non-empty string requires itself only. A non-empty array requires exactly the sources some value of it loosely equals: a string entry itself, a `true` entry every non-empty source. An empty value (`""` and `"0"` among them) requires nothing |
| Resolution.GetValueReadsSource | src/Resourceful.php:285-293 | `getValue` is null when `enabled` is literally `false`, and otherwise the value of the current source |
| Resolution.RunFuelMonotone | src/Resourceful.php:412-420 | more relation hops never change a finished resolution |
| Resolution.GetValueFuelMonotone | src/Resourceful.php:412-420 | as `RunFuelMonotone`, for `getValue` |
| Resolution.RunChain | src/Resourceful.php:412-420 | along a chain of hand-overs, the first record resolves, one hop per record, to what the last resolves to |
| Resolution.DelegationChain | src/Resourceful.php:412-420 | as `RunChain`, for `getValue` |
| Resolution.RunCycle | src/Resourceful.php:412-420 | on a cycle of hand-overs no amount of fuel resolves |
| Resolution.CycleNeverResolves | src/Resourceful.php:412-420 | as `RunCycle`, for `getValue`: the missing cycle guard |
| Resolution.FieldDefaultsEffect | src/Resourceful.php:116-127 | after `setFieldDefaults` the configuration is the same and the stored choice reads as null. Inheritance holds wherever it is possible. The source is the forced one, else the inherited one, else the default one |
| Resolver.ExpandPipes | src/Resourceful.php:147-161 | the nested expansion loop computes the expansion |
| Resolver.ExpandPipesOneLevel | src/Resourceful.php:149-155 | the inner loop expands each element of one array value |
| Resolver.Resourceful.constructor | src/Resourceful.php:414-416 | a fresh resolver is bound to the record and name, with an empty cache |
| Resolver.Resourceful.SetDataObject | src/Resourceful.php:68-73 | rebinding the record empties the cache and keeps the name |
| Resolver.Resourceful.SetName | src/Resourceful.php:80-85 | renaming empties the cache and keeps the record |
| Resolver.Resourceful.GetDefaultConfigData | src/Resourceful.php:167-185 | the substitution and the relation unset/re-add loops compute the defaults |
| Resolver.Resourceful.MergeWithDefaultConfigData | src/Resourceful.php:187-209 | the merge loop computes the merge |
| Resolver.Resourceful.GetConfigData | src/Resourceful.php:130-165 | the result is always the fresh configuration. A cached entry is returned as it is. A computed one is cached. A null result caches nothing. The cache stays valid |
| Resolver.Resourceful.GetConfigValue | src/Resourceful.php:211-243 | the lookup on the (possibly cached) configuration |
| Resolver.Resourceful.GetMethodNameForSource | src/Resourceful.php:479-500 | the method scan over `values` |
| Resolver.Resourceful.GetFieldNameForSource | src/Resourceful.php:502-523 | the field scan over `values` |
| Resolver.Resourceful.GetRelationMethodNameForSource | src/Resourceful.php:525-546 | the method scan over `relations` |
| Resolver.Resourceful.GetRelationNameForSource | src/Resourceful.php:548-568 | the relation-name scan over `relations` |
| Resolver.Resourceful.GetForceSource | src/Resourceful.php:339-356 | the forced source, as `ForcedListPrefersAvailable` and `ForcedListFallsBackToFirst` characterise it |
| Resolver.Resourceful.GetAvailableSources | src/Resourceful.php:606-617 | the available sources, as `AvailableSourcesSpec` characterises them |
| Resolver.Resourceful.SetFieldDefaults | src/Resourceful.php:116-127 | the record after the two `setField` calls. The cache is the old cache filled for the name, and it stays valid, since neither the class configuration nor the relations change |

The remaining query methods only read the resolver's state. These are
`isEnabled`, the field-name getters, `getSource`, `getValue`,
`isInheritable`/`isInherited`, the inherit, default, selected and select
source getters, `getSourceValue`, `getSourceRelation`, `isSourceAvailable`
and `isSourceRelationRequired` (src/Resourceful.php:246-455, 571-604,
619-629). Each is a function of the binding in `Resolution`, and the lemmas
above state their properties. The record is immutable inside them, so a
class method would add nothing.

## Left out

- CMS form assembly and placement (src/Resourceful.php:632-909) is presentation code over form classes that are not part of this model.
- `getAllNames` and `setAllFieldDefaults` (src/Resourceful.php:93-114) read the class configuration's key list and loop `setFieldDefaults` over it. That per-name step is modelled; the key enumeration over the framework's config API is not.
- `inst` (src/Resourceful.php:60-66) reuses an injector singleton. The model uses the constructor, which is what the relation hand-over does. Sharing one instance between callers is not modelled.
- src/Extensions/ResourcefulDataExtension.php only delegates to `Resourceful` and framework hooks. It is not part of this model.
- The framework's `config()` merging across the class hierarchy is not modelled. The class configuration is one value on the record.
- What a host method does is not modelled: each method name maps to the value it returns.
- `Host.FallbackSite`: the module manifest lookup is a boolean of the environment; `SiteConfig::current_site_config()` is an optional record id.
- Integer and float configuration values, and PHP's numeric-string loose comparison, are not modelled: `in_array` and `==` compare numeric strings as text. Booleans and null compare loosely, as PHP does.
- Calls that would raise a PHP TypeError are coerced, not raised. The most common: `getDoInheritFieldName()` and `getSourceFieldName()` are declared `string`, so for a name the class does not configure PHP throws on every query, while the model reads the field name as null and carries on as if the field were missing. Others: a non-string where `?string` is declared, an array given to `hasField`, `in_array` on `true`. An array or object gives null; a boolean gives `""` or `"1"`.
- A section such as `values` that is a string rather than an array is read as holding no candidates. PHP gives the same null for a non-numeric source, but would read a string offset for a numeric source.
- `Resolution.GetValue`: unbounded recursion is modelled by fuel. `OutOfFuel` stands for the non-terminating call chain of the source.
- `Resolver.Resourceful.SetFieldDefaults`: the record is a value. The model does not capture that the change is visible through other references to the same data object.
- Resolution methods that only read state are functions of the binding in `Resolution`, not methods of `Resourceful`. They do not fill the cache. The cache never changes a result: `GetConfigData` proves it returns the fresh configuration.
- Only has-one relations are modelled: a relation yields at most one record.
- `Php.NormKey`: PHP keeps a decimal string beyond `PHP_INT_MAX` as a string key; the model makes every canonical decimal string an integer key, because integers are unbounded here.
