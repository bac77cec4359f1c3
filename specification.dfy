/** The defaults `SpecificationHandler` applies to a parsed LaDeRR
    specification before it is converted to a graph
    (laderr_engine/laderr_lib/services/specification.py), and the collapse
    of multi-valued properties when a graph is written back.

    A Python dict the handler mutates is a `Dict` whose entries the methods
    reassign; the nested dicts of a parsed TOML document are values inside
    it (they are never shared). Where Python raises, the methods return
    `ok == false`. */
module Specification {
  import opened Rdf
  import opened Toml
  import opened GraphHandler

  /** A mutable Python dict. */
  class Dict {
    var entries: Entries

    constructor (es: Entries)
      ensures entries == es
    {
      entries := es;
    }
  }

  /** The `Value` list of a sequence of strings. */
  function StrList(ss: seq<string>): (r: seq<Value>)
    ensures |r| == |ss| && forall i :: 0 <= i < |ss| ==> r[i] == Str(ss[i])
  {
    if ss == [] then [] else [Str(ss[0])] + StrList(ss[1..])
  }

  /** After `d[key] = v`, the key maps to `v`; every other key is unchanged. */
  lemma PutGetAll(es: Entries, key: string, v: Value)
    ensures Get(Put(es, key, v), key) == Some(v)
    ensures forall other :: other != key ==> Get(Put(es, key, v), other) == Get(es, other)
  {
    forall other | other != key
      ensures Get(Put(es, key, v), other) == Get(es, other)
    {
      PutGet(es, key, v, other);
    }
    PutGet(es, key, v, key);
  }

  /** After `del d[key]`, the key is absent; every other key is unchanged. */
  lemma DeleteGetAll(es: Entries, key: string)
    ensures Get(Delete(es, key), key) == None
    ensures forall other :: other != key ==> Get(Delete(es, key), other) == Get(es, other)
  {
    forall other | other != key
      ensures Get(Delete(es, key), other) == Get(es, other)
    {
      DeleteGet(es, key, other);
    }
    DeleteGet(es, key, key);
  }

  // =====================================================================
  // _apply_metadata_defaults

  /** `_apply_metadata_defaults` on the metadata's entries: `baseURI` becomes
      the given URI when `isValid` (urlparse finds a scheme and a network
      location) accepts it, the default otherwise; a string `createdBy`
      becomes a one-element list. `urlparse` turns a falsy non-string into
      the empty string, which has no scheme, and raises on a truthy one:
      that is where the result is `None`. */
  function MetadataDefaults(meta: Entries, isValid: string -> bool): Option<Entries> {
    var base := Get(meta, "baseURI");
    if base.Some? && !base.value.Str? && !Falsy(base.value) then None
    else
      var uri := GivenBase(meta);
      var m := Put(meta, "baseURI", Str(if isValid(uri) then uri else DefaultBaseUri));
      Some(CreatedByAsList(m))
  }

  /** The URI to validate: the `baseURI` string, or the default when the key
      is missing; a falsy non-string parses to no scheme, so it ends at the
      default too. */
  function GivenBase(meta: Entries): string {
    var base := Get(meta, "baseURI");
    if base.Some? && base.value.Str? then base.value.s else DefaultBaseUri
  }

  /** A string `createdBy` becomes a one-element list. */
  function CreatedByAsList(m: Entries): Entries {
    var createdBy := Get(m, "createdBy");
    if createdBy.Some? && createdBy.value.Str? then Put(m, "createdBy", List([createdBy.value])) else m
  }

  lemma CreatedByAsListGet(m: Entries)
    ensures Get(CreatedByAsList(m), "createdBy")
            == (if Get(m, "createdBy").Some? && Get(m, "createdBy").value.Str?
                then Some(List([Get(m, "createdBy").value])) else Get(m, "createdBy"))
    ensures forall k :: k != "createdBy" ==> Get(CreatedByAsList(m), k) == Get(m, k)
  {
    var createdBy := Get(m, "createdBy");
    if createdBy.Some? && createdBy.value.Str? {
      PutGetAll(m, "createdBy", List([createdBy.value]));
    }
  }

  /** The metadata defaults fail exactly on a truthy non-string `baseURI`;
      after them `baseURI` is a string (the given one when valid, else the
      default, which a falsy non-string also gets), `createdBy` is never a
      bare string, and nothing else changes. */
  lemma MetadataDefaultsMeaning(meta: Entries, isValid: string -> bool)
    ensures MetadataDefaults(meta, isValid).None?
            <==> (HasKey(meta, "baseURI") && !Get(meta, "baseURI").value.Str? && !Falsy(Get(meta, "baseURI").value))
    ensures MetadataDefaults(meta, isValid).Some? ==>
              var r := MetadataDefaults(meta, isValid).value;
              var uri := GivenBase(meta);
              && BaseIsText(r)
              && Get(r, "baseURI") == Some(Str(if isValid(uri) then uri else DefaultBaseUri))
              && ((HasKey(meta, "baseURI") && !Get(meta, "baseURI").value.Str?)
                    ==> Get(r, "baseURI") == Some(Str(DefaultBaseUri)))
              && ((Get(meta, "createdBy").Some? && Get(meta, "createdBy").value.Str?)
                    ==> Get(r, "createdBy") == Some(List([Get(meta, "createdBy").value])))
              && ((Get(meta, "createdBy").None? || !Get(meta, "createdBy").value.Str?)
                    ==> Get(r, "createdBy") == Get(meta, "createdBy"))
              && forall k :: k != "baseURI" && k != "createdBy" ==> Get(r, k) == Get(meta, k)
  {
    if MetadataDefaults(meta, isValid).Some? {
      var uri := GivenBase(meta);
      var b := Str(if isValid(uri) then uri else DefaultBaseUri);
      var m := Put(meta, "baseURI", b);
      var r := CreatedByAsList(m);
      assert MetadataDefaults(meta, isValid).value == r;
      assert "baseURI"[0] != "createdBy"[0];
      CreatedByAsListGet(m);
      PutGet(meta, "baseURI", b, "createdBy");
      assert Get(r, "baseURI") == Get(m, "baseURI") == Some(b);
      forall k | k != "baseURI" && k != "createdBy"
        ensures Get(r, k) == Get(meta, k)
      {
        PutGet(meta, "baseURI", b, k);
      }
    }
  }

  /** Applying the metadata defaults twice is applying them once. */
  lemma MetadataDefaultsIdempotent(meta: Entries, isValid: string -> bool)
    requires MetadataDefaults(meta, isValid).Some?
    ensures MetadataDefaults(MetadataDefaults(meta, isValid).value, isValid) == MetadataDefaults(meta, isValid)
  {
    var r := MetadataDefaults(meta, isValid).value;
    MetadataDefaultsMeaning(meta, isValid);
    var base := Get(r, "baseURI").value;
    assert Put(r, "baseURI", Str(if isValid(base.s) then base.s else DefaultBaseUri)) == r by {
      PutSame(r, "baseURI", base);
    }
  }

  /** `_apply_metadata_defaults`: updates the metadata dict in place. */
  method ApplyMetadataDefaults(meta: Dict, isValid: string -> bool) returns (ok: bool)
    modifies meta
    ensures ok == MetadataDefaults(old(meta.entries), isValid).Some?
    ensures ok ==> meta.entries == MetadataDefaults(old(meta.entries), isValid).value
    ensures !ok ==> meta.entries == old(meta.entries)
  {
    var base := Get(meta.entries, "baseURI");
    if base.Some? && !base.value.Str? && !Falsy(base.value) {
      return false;
    }
    var uri := if base.Some? && base.value.Str? then base.value.s else DefaultBaseUri;
    if !isValid(uri) {
      meta.entries := Put(meta.entries, "baseURI", Str(DefaultBaseUri));
    } else {
      meta.entries := Put(meta.entries, "baseURI", Str(uri));
    }
    var createdBy := Get(meta.entries, "createdBy");
    if createdBy.Some? && createdBy.value.Str? {
      meta.entries := Put(meta.entries, "createdBy", List([createdBy.value]));
    }
    ok := true;
  }

  // =====================================================================
  // _inject_default_scenario_if_missing

  /** The three upper-case ASCII letters `random.choices` draws. */
  predicate ScenarioSuffix(suffix: string) {
    |suffix| == 3 && forall i :: 0 <= i < 3 ==> 'A' <= suffix[i] <= 'Z'
  }

  /** `_inject_default_scenario_if_missing` with the drawn suffix: a missing
      or empty Scenario table gets the one scenario `"S" + suffix`. `None`
      where Python raises: a falsy Scenario value that is not a dict cannot
      take an item assignment. */
  function InjectDefaultScenario(data: Entries, suffix: string): Option<Entries>
    requires ScenarioSuffix(suffix)
  {
    var scenarios := Get(data, "Scenario");
    if scenarios.Some? && !Falsy(scenarios.value) then Some(data)
    else if scenarios.Some? && !scenarios.value.Table? then None
    else
      var table := if scenarios.Some? then scenarios.value.entries else [];
      Some(Put(data, "Scenario", Table(Put(table, "S" + suffix, Table([])))))
  }

  /** After the injection there is at least one scenario; a specification
      that had one is unchanged, and otherwise the Scenario table holds just
      the new scenario, with no properties. No other key changes. */
  lemma InjectDefaultScenarioMeaning(data: Entries, suffix: string)
    requires ScenarioSuffix(suffix)
    ensures InjectDefaultScenario(data, suffix).None?
            <==> HasKey(data, "Scenario") && Falsy(Get(data, "Scenario").value) && !Get(data, "Scenario").value.Table?
    ensures InjectDefaultScenario(data, suffix).Some? ==>
              var r := InjectDefaultScenario(data, suffix).value;
              && Get(r, "Scenario").Some? && !Falsy(Get(r, "Scenario").value)
              && ((HasKey(data, "Scenario") && !Falsy(Get(data, "Scenario").value)) ==> r == data)
              && ((!HasKey(data, "Scenario") || Falsy(Get(data, "Scenario").value))
                    ==> Get(r, "Scenario") == Some(Table([("S" + suffix, Table([]))])))
              && forall k :: k != "Scenario" ==> Get(r, k) == Get(data, k)
  {
    var scenarios := Get(data, "Scenario");
    if !(scenarios.Some? && !Falsy(scenarios.value)) && InjectDefaultScenario(data, suffix).Some? {
      var table := if scenarios.Some? then scenarios.value.entries else [];
      assert table == [];
      PutGetAll(data, "Scenario", Table(Put(table, "S" + suffix, Table([]))));
    }
  }

  /** The injection is idempotent, whatever suffix the second call draws. */
  lemma InjectDefaultScenarioIdempotent(data: Entries, suffix: string, suffix2: string)
    requires ScenarioSuffix(suffix) && ScenarioSuffix(suffix2)
    requires InjectDefaultScenario(data, suffix).Some?
    ensures InjectDefaultScenario(InjectDefaultScenario(data, suffix).value, suffix2) == InjectDefaultScenario(data, suffix)
  {
    InjectDefaultScenarioMeaning(data, suffix);
  }

  /** `_inject_default_scenario_if_missing`: updates the data dict in
      place. */
  method InjectDefaultScenarioIfMissing(data: Dict, suffix: string) returns (ok: bool)
    requires ScenarioSuffix(suffix)
    modifies data
    ensures ok == InjectDefaultScenario(old(data.entries), suffix).Some?
    ensures ok ==> data.entries == InjectDefaultScenario(old(data.entries), suffix).value
    ensures !ok ==> data.entries == old(data.entries)
  {
    var scenarios := Get(data.entries, "Scenario");
    if scenarios.Some? && !Falsy(scenarios.value) {
      return true;
    }
    if scenarios.None? {
      data.entries := Put(data.entries, "Scenario", Table([]));
      PutGetAll(old(data.entries), "Scenario", Table([]));
      PutPut(old(data.entries), "Scenario", Table([]), Table(Put([], "S" + suffix, Table([]))));
    } else if !scenarios.value.Table? {
      return false;
    }
    var table := Get(data.entries, "Scenario").value.entries;
    data.entries := Put(data.entries, "Scenario", Table(Put(table, "S" + suffix, Table([]))));
    ok := true;
  }

  // =====================================================================
  // _apply_data_defaults

  /** The construct types whose instances get a default state. */
  const StatefulTypes: set<string> := {"Disposition", "Capability", "Vulnerability"}

  /** `[v]` unless `v` is already a list. */
  function AsList(v: Value): (r: Value)
    ensures r.List? && (v.List? ==> r == v) && (!v.List? ==> r.items == [v])
  {
    if v.List? then v else List([v])
  }

  /** The keys of the Scenario table, collected before any default is
      applied. */
  function ScenarioIds(data: Entries): seq<string> {
    var scenarios := Get(data, "Scenario");
    if scenarios.Some? && scenarios.value.Table? then Keys(scenarios.value.entries) else []
  }

  /** `d.get(key, d)`. */
  function GetOr(es: Entries, key: string, d: Value): Value {
    match Get(es, key)
    case Some(v) => v
    case None => d
  }

  /** `if key not in d: d[key] = v`. */
  function Default(es: Entries, key: string, v: Value): Entries {
    if HasKey(es, key) then es else Put(es, key, v)
  }

  /** After `Default`, the key holds its old value, or `v` when it had none;
      every other key is unchanged. */
  lemma DefaultGet(es: Entries, key: string, v: Value)
    ensures Get(Default(es, key, v), key) == Some(GetOr(es, key, v))
    ensures forall other :: other != key ==> Get(Default(es, key, v), other) == Get(es, other)
  {
    PutGetAll(es, key, v);
  }

  /** The `scenario` key becomes `scenarios` (a list) unless `scenarios` is
      already there; either way `scenario` goes. */
  function ScenarioToScenarios(es: Entries): Entries {
    if !HasKey(es, "scenario") then es
    else Delete(Default(es, "scenarios", AsList(Get(es, "scenario").value)), "scenario")
  }

  lemma ScenarioToScenariosGet(es: Entries)
    ensures Get(ScenarioToScenarios(es), "scenario") == None
    ensures Get(ScenarioToScenarios(es), "scenarios")
            == (match Get(es, "scenario")
                case None => Get(es, "scenarios")
                case Some(v) => Some(GetOr(es, "scenarios", AsList(v))))
    ensures forall k :: k != "scenario" && k != "scenarios" ==> Get(ScenarioToScenarios(es), k) == Get(es, k)
  {
    if HasKey(es, "scenario") {
      DefaultGet(es, "scenarios", AsList(Get(es, "scenario").value));
      DeleteGetAll(Default(es, "scenarios", AsList(Get(es, "scenario").value)), "scenario");
    }
  }

  /** The instance with its id enforced and its label defaulted. */
  function Labelled(iid: string, props: Entries): Entries {
    Default(Put(props, "id", Str(iid)), "label", Str(iid))
  }

  lemma LabelledGet(iid: string, props: Entries)
    ensures Get(Labelled(iid, props), "id") == Some(Str(iid))
    ensures Get(Labelled(iid, props), "label") == Some(GetOr(props, "label", Str(iid)))
    ensures forall k :: k != "id" && k != "label" ==> Get(Labelled(iid, props), k) == Get(props, k)
  {
    PutGetAll(props, "id", Str(iid));
    DefaultGet(Put(props, "id", Str(iid)), "label", Str(iid));
  }

  /** The defaults particular to a scenario. */
  function ScenarioFields(es: Entries): Entries {
    Default(Default(es, "situation", Str("operational")), "status", Str("vulnerable"))
  }

  lemma ScenarioFieldsGet(es: Entries)
    ensures Get(ScenarioFields(es), "situation") == Some(GetOr(es, "situation", Str("operational")))
    ensures Get(ScenarioFields(es), "status") == Some(GetOr(es, "status", Str("vulnerable")))
    ensures forall k :: k != "situation" && k != "status" ==> Get(ScenarioFields(es), k) == Get(es, k)
  {
    DefaultGet(es, "situation", Str("operational"));
    DefaultGet(Default(es, "situation", Str("operational")), "status", Str("vulnerable"));
  }

  /** The defaults particular to the other construct types. */
  function ConstructFields(ctype: string, es: Entries, ids: seq<string>): Entries {
    var linked := Default(ScenarioToScenarios(es), "scenarios", List(StrList(ids)));
    if ctype in StatefulTypes then Default(linked, "state", Str("enabled")) else linked
  }

  lemma ConstructFieldsGet(ctype: string, es: Entries, ids: seq<string>)
    ensures Get(ConstructFields(ctype, es, ids), "scenario") == None
    ensures Get(ConstructFields(ctype, es, ids), "scenarios")
            == Some(match Get(es, "scenario")
                    case None => GetOr(es, "scenarios", List(StrList(ids)))
                    case Some(v) => GetOr(es, "scenarios", AsList(v)))
    ensures Get(ConstructFields(ctype, es, ids), "state")
            == (if ctype in StatefulTypes then Some(GetOr(es, "state", Str("enabled"))) else Get(es, "state"))
    ensures forall k :: k != "scenario" && k != "scenarios" && k != "state" ==> Get(ConstructFields(ctype, es, ids), k) == Get(es, k)
  {
    var converted := ScenarioToScenarios(es);
    ScenarioToScenariosGet(es);
    var linked := Default(converted, "scenarios", List(StrList(ids)));
    DefaultGet(converted, "scenarios", List(StrList(ids)));
    DefaultGet(linked, "state", Str("enabled"));
  }

  /** The defaults of one instance `iid` of the construct type `ctype`. */
  function InstanceDefaults(ctype: string, iid: string, props: Entries, ids: seq<string>): Entries {
    var labelled := Labelled(iid, props);
    if ctype == "Scenario" then ScenarioFields(labelled) else ConstructFields(ctype, labelled, ids)
  }

  /** One entry of a construct table: instances that are dicts, under keys
      other than "id" and "label", get their defaults. */
  function MemberDefaults(ctype: string, iid: string, v: Value, ids: seq<string>): Value {
    if iid in {"id", "label"} || !v.Table? then v else Table(InstanceDefaults(ctype, iid, v.entries, ids))
  }

  function ConstructDefaults(ctype: string, items: Entries, ids: seq<string>): (r: Entries)
    ensures |r| == |items| && forall j :: 0 <= j < |items| ==> r[j].0 == items[j].0
  {
    seq(|items|, j requires 0 <= j < |items| => (items[j].0, MemberDefaults(ctype, items[j].0, items[j].1, ids)))
  }

  /** One top-level entry: construct tables get their instances' defaults;
      any other value is skipped. */
  function TypeDefaults(ctype: string, v: Value, ids: seq<string>): Value {
    if v.Table? then Table(ConstructDefaults(ctype, v.entries, ids)) else v
  }

  /** `_apply_data_defaults` on the data's entries; `None` where Python
      raises: a Scenario value that is not a dict has no `keys()`. */
  function DataDefaults(data: Entries): Option<Entries> {
    var scenarios := Get(data, "Scenario");
    if scenarios.Some? && !scenarios.value.Table? then None
    else
      var ids := ScenarioIds(data);
      Some(seq(|data|, i requires 0 <= i < |data| => (data[i].0, TypeDefaults(data[i].0, data[i].1, ids))))
  }

  /** What a scenario looks like after its defaults: its id is its key, it
      has a label (its id unless it had one), a situation (default
      "operational") and a status (default "vulnerable"). No other key
      changes. */
  lemma ScenarioDefaultsMeaning(iid: string, props: Entries, ids: seq<string>)
    ensures var r := InstanceDefaults("Scenario", iid, props, ids);
            && Get(r, "id") == Some(Str(iid))
            && Get(r, "label") == Some(GetOr(props, "label", Str(iid)))
            && Get(r, "situation") == Some(GetOr(props, "situation", Str("operational")))
            && Get(r, "status") == Some(GetOr(props, "status", Str("vulnerable")))
            && forall k :: k !in {"id", "label", "situation", "status"} ==> Get(r, k) == Get(props, k)
  {
    var labelled := Labelled(iid, props);
    LabelledGet(iid, props);
    ScenarioFieldsFrom(labelled, props);
  }

  /** The scenario fields of a dict that agrees with `props` on the
      situation and status keys. */
  lemma ScenarioFieldsFrom(es: Entries, props: Entries)
    requires Get(es, "situation") == Get(props, "situation")
    requires Get(es, "status") == Get(props, "status")
    ensures Get(ScenarioFields(es), "situation") == Some(GetOr(props, "situation", Str("operational")))
    ensures Get(ScenarioFields(es), "status") == Some(GetOr(props, "status", Str("vulnerable")))
    ensures forall k :: k != "situation" && k != "status" ==> Get(ScenarioFields(es), k) == Get(es, k)
  {
    ScenarioFieldsGet(es);
  }

  /** What any other instance looks like after its defaults: its id is its
      key, it has a label (its id unless it had one), no `scenario` key but
      `scenarios` — its own, else its `scenario` as a list, else every
      scenario — and a disposition, capability or vulnerability has a state
      (default "enabled"). */
  lemma ConstructDefaultsMeaning(ctype: string, iid: string, props: Entries, ids: seq<string>)
    requires ctype != "Scenario"
    ensures var r := InstanceDefaults(ctype, iid, props, ids);
            && Get(r, "id") == Some(Str(iid))
            && Get(r, "label") == Some(GetOr(props, "label", Str(iid)))
            && Get(r, "scenario") == None
            && Get(r, "scenarios") == Some(match Get(props, "scenario")
                                           case None => GetOr(props, "scenarios", List(StrList(ids)))
                                           case Some(v) => GetOr(props, "scenarios", AsList(v)))
            && Get(r, "state") == (if ctype in StatefulTypes then Some(GetOr(props, "state", Str("enabled")))
                                   else Get(props, "state"))
  {
    ConstructDefaultsLabelled(ctype, iid, props, ids);
    ConstructDefaultsLinked(ctype, iid, props, ids);
  }

  /** The id and label of an instance other than a scenario. */
  lemma ConstructDefaultsLabelled(ctype: string, iid: string, props: Entries, ids: seq<string>)
    requires ctype != "Scenario"
    ensures Get(InstanceDefaults(ctype, iid, props, ids), "id") == Some(Str(iid))
    ensures Get(InstanceDefaults(ctype, iid, props, ids), "label") == Some(GetOr(props, "label", Str(iid)))
  {
    var labelled := Labelled(iid, props);
    LabelledGet(iid, props);
    ConstructFieldsGet(ctype, labelled, ids);
  }

  /** The scenarios and state of an instance other than a scenario. */
  lemma ConstructDefaultsLinked(ctype: string, iid: string, props: Entries, ids: seq<string>)
    requires ctype != "Scenario"
    ensures Get(InstanceDefaults(ctype, iid, props, ids), "scenario") == None
    ensures Get(InstanceDefaults(ctype, iid, props, ids), "scenarios")
            == Some(match Get(props, "scenario")
                    case None => GetOr(props, "scenarios", List(StrList(ids)))
                    case Some(v) => GetOr(props, "scenarios", AsList(v)))
    ensures Get(InstanceDefaults(ctype, iid, props, ids), "state")
            == (if ctype in StatefulTypes then Some(GetOr(props, "state", Str("enabled"))) else Get(props, "state"))
  {
    var labelled := Labelled(iid, props);
    LabelledGet(iid, props);
    ConstructFieldsLinked(ctype, labelled, props, ids);
  }

  /** The construct fields of a dict that agrees with `props` on the
      scenario, scenarios and state keys. */
  lemma ConstructFieldsLinked(ctype: string, es: Entries, props: Entries, ids: seq<string>)
    requires Get(es, "scenario") == Get(props, "scenario")
    requires Get(es, "scenarios") == Get(props, "scenarios")
    requires Get(es, "state") == Get(props, "state")
    ensures Get(ConstructFields(ctype, es, ids), "scenario") == None
    ensures Get(ConstructFields(ctype, es, ids), "scenarios")
            == Some(match Get(props, "scenario")
                    case None => GetOr(props, "scenarios", List(StrList(ids)))
                    case Some(v) => GetOr(props, "scenarios", AsList(v)))
    ensures Get(ConstructFields(ctype, es, ids), "state")
            == (if ctype in StatefulTypes then Some(GetOr(props, "state", Str("enabled"))) else Get(props, "state"))
  {
    ConstructFieldsGet(ctype, es, ids);
  }

  /** The defaults of an instance other than a scenario change no key but
      those named above. */
  lemma ConstructDefaultsKeepOthers(ctype: string, iid: string, props: Entries, ids: seq<string>, k: string)
    requires ctype != "Scenario"
    requires k !in {"id", "label", "scenario", "scenarios", "state"}
    ensures Get(InstanceDefaults(ctype, iid, props, ids), k) == Get(props, k)
  {
    LabelledGet(iid, props);
    ConstructFieldsGet(ctype, Labelled(iid, props), ids);
  }

  /** An instance that already has its defaults keeps them. */
  lemma InstanceDefaultsIdempotent(ctype: string, iid: string, props: Entries, ids: seq<string>)
    ensures InstanceDefaults(ctype, iid, InstanceDefaults(ctype, iid, props, ids), ids) == InstanceDefaults(ctype, iid, props, ids)
  {
    var r := InstanceDefaults(ctype, iid, props, ids);
    if ctype == "Scenario" {
      ScenarioDefaultsMeaning(iid, props, ids);
      assert HasKey(r, "label") && HasKey(r, "situation") && HasKey(r, "status");
    } else {
      ConstructDefaultsMeaning(ctype, iid, props, ids);
      assert HasKey(r, "label") && !HasKey(r, "scenario") && HasKey(r, "scenarios");
      assert ctype in StatefulTypes ==> HasKey(r, "state");
    }
    PutSame(r, "id", Str(iid));
    assert Labelled(iid, r) == r;
  }

  /** Two dicts with the same keys in the same order find a key at the same
      position. */
  lemma {:induction false} GetSameKeys(a: Entries, b: Entries, key: string)
    requires |a| == |b| && forall i :: 0 <= i < |a| ==> a[i].0 == b[i].0
    ensures HasKey(a, key) == HasKey(b, key)
    ensures HasKey(a, key) ==> exists i :: 0 <= i < |a| && a[i].0 == key && Get(a, key) == Some(a[i].1) && Get(b, key) == Some(b[i].1)
  {
    if a != [] && a[0].0 != key {
      GetSameKeys(a[1..], b[1..], key);
      if HasKey(a, key) {
        var i :| 0 <= i < |a[1..]| && a[1..][i].0 == key && Get(a[1..], key) == Some(a[1..][i].1) && Get(b[1..], key) == Some(b[1..][i].1);
        assert a[i + 1].0 == key && Get(a, key) == Some(a[i + 1].1) && Get(b, key) == Some(b[i + 1].1);
      }
    }
  }

  /** The defaults fail exactly on a Scenario value that is not a dict; they
      keep every key in place and leave the scenario ids as they were. */
  lemma DataDefaultsKeys(data: Entries)
    ensures DataDefaults(data).None? <==> HasKey(data, "Scenario") && !Get(data, "Scenario").value.Table?
    ensures DataDefaults(data).Some? ==>
              && Keys(DataDefaults(data).value) == Keys(data)
              && ScenarioIds(DataDefaults(data).value) == ScenarioIds(data)
              && (HasKey(DataDefaults(data).value, "Scenario") ==> Get(DataDefaults(data).value, "Scenario").value.Table?)
  {
    if DataDefaults(data).Some? {
      var r := DataDefaults(data).value;
      var ids := ScenarioIds(data);
      assert forall i :: 0 <= i < |r| ==> r[i] == (data[i].0, TypeDefaults(data[i].0, data[i].1, ids));
      GetSameKeys(data, r, "Scenario");
      if HasKey(data, "Scenario") {
        var i :| 0 <= i < |data| && data[i].0 == "Scenario" && Get(data, "Scenario") == Some(data[i].1) && Get(r, "Scenario") == Some(r[i].1);
        assert r[i].1 == Table(ConstructDefaults("Scenario", data[i].1.entries, ids));
        assert Keys(ConstructDefaults("Scenario", data[i].1.entries, ids)) == Keys(data[i].1.entries);
      }
    }
  }

  /** Applying the data defaults twice is applying them once. */
  lemma DataDefaultsIdempotent(data: Entries)
    requires DataDefaults(data).Some?
    ensures DataDefaults(DataDefaults(data).value) == DataDefaults(data)
  {
    var r := DataDefaults(data).value;
    var ids := ScenarioIds(data);
    DataDefaultsKeys(data);
    assert forall i :: 0 <= i < |r| ==> r[i] == (data[i].0, TypeDefaults(data[i].0, data[i].1, ids));
    forall i | 0 <= i < |r|
      ensures TypeDefaults(r[i].0, r[i].1, ids) == r[i].1
    {
      var ctype := data[i].0;
      if data[i].1.Table? {
        var items := data[i].1.entries;
        var once := ConstructDefaults(ctype, items, ids);
        forall j | 0 <= j < |once|
          ensures MemberDefaults(ctype, once[j].0, once[j].1, ids) == once[j].1
        {
          if !(items[j].0 in {"id", "label"}) && items[j].1.Table? {
            InstanceDefaultsIdempotent(ctype, items[j].0, items[j].1.entries, ids);
          }
        }
        assert ConstructDefaults(ctype, once, ids) == once;
      }
    }
    assert DataDefaults(r).value == r;
  }

  /** The body of the instance loop of `_apply_data_defaults` for one
      construct table. */
  method ApplyConstructDefaults(ctype: string, items: Entries, ids: seq<string>) returns (r: Entries)
    ensures r == ConstructDefaults(ctype, items, ids)
  {
    r := items;
    var j := 0;
    while j < |items|
      invariant 0 <= j <= |items| && |r| == |items|
      invariant forall k :: 0 <= k < j ==> r[k] == (items[k].0, MemberDefaults(ctype, items[k].0, items[k].1, ids))
      invariant forall k :: j <= k < |items| ==> r[k] == items[k]
    {
      var iid := items[j].0;
      var instance := items[j].1;
      if !(iid in {"id", "label"}) && instance.Table? {
        r := r[j := (iid, Table(InstanceDefaults(ctype, iid, instance.entries, ids)))];
      }
      j := j + 1;
    }
  }

  /** `_apply_data_defaults`: updates the data dict, and the dicts inside it,
      in place. */
  method ApplyDataDefaults(data: Dict) returns (ok: bool)
    modifies data
    ensures ok == DataDefaults(old(data.entries)).Some?
    ensures ok ==> data.entries == DataDefaults(old(data.entries)).value
    ensures !ok ==> data.entries == old(data.entries)
  {
    var scenarios := Get(data.entries, "Scenario");
    if scenarios.Some? && !scenarios.value.Table? {
      return false;
    }
    var ids := if scenarios.Some? then Keys(scenarios.value.entries) else [];
    assert ids == ScenarioIds(old(data.entries));
    var i := 0;
    while i < |data.entries|
      invariant 0 <= i <= |data.entries| == |old(data.entries)|
      invariant forall k :: 0 <= k < i ==> data.entries[k] == (old(data.entries)[k].0, TypeDefaults(old(data.entries)[k].0, old(data.entries)[k].1, ids))
      invariant forall k :: i <= k < |data.entries| ==> data.entries[k] == old(data.entries)[k]
    {
      var ctype := data.entries[i].0;
      var items := data.entries[i].1;
      if items.Table? {
        var updated := ApplyConstructDefaults(ctype, items.entries, ids);
        data.entries := data.entries[i := (ctype, Table(updated))];
      }
      i := i + 1;
    }
    ok := true;
  }

  // =====================================================================
  // write_specification: the collapse of multi-valued properties

  /** Python's `<` on strings: code point by code point, a proper prefix
      first. */
  predicate StrLt(a: string, b: string) {
    b != [] && (a == [] || a[0] < b[0] || (a[0] == b[0] && StrLt(a[1..], b[1..])))
  }

  predicate StrLe(a: string, b: string) {
    a == b || StrLt(a, b)
  }

  /** The order on strings is a strict total order. */
  lemma {:induction false} StrLtTotal(a: string, b: string)
    ensures a != b ==> StrLt(a, b) || StrLt(b, a)
    ensures !(StrLt(a, b) && StrLt(b, a))
  {
    if a != [] && b != [] && a[0] == b[0] {
      StrLtTotal(a[1..], b[1..]);
      if a != b {
        assert a == [a[0]] + a[1..] && b == [b[0]] + b[1..];
      }
    }
  }

  lemma {:induction false} StrLtTransitive(a: string, b: string, c: string)
    requires StrLt(a, b) && StrLt(b, c)
    ensures StrLt(a, c)
  {
    if a != [] && a[0] == b[0] && b[0] == c[0] {
      StrLtTransitive(a[1..], b[1..], c[1..]);
    }
  }

  predicate Sorted(s: seq<string>) {
    forall i, j :: 0 <= i < j < |s| ==> StrLe(s[i], s[j])
  }

  predicate StrictlySorted(s: seq<string>) {
    forall i, j :: 0 <= i < j < |s| ==> StrLt(s[i], s[j])
  }

  /** `x` put into its place in a sorted sequence. */
  function Insert(x: string, s: seq<string>): (r: seq<string>)
    requires Sorted(s)
    ensures Sorted(r) && multiset(r) == multiset(s) + multiset{x}
  {
    if s == [] then [x]
    else if StrLe(x, s[0]) then
      SortedFirstLeast(s, s[0]);
      BelowFirst(x, s);
      SortedCons(x, s);
      [x] + s
    else
      var rest := Insert(x, s[1..]);
      StrLtTotal(x, s[0]);
      assert s == [s[0]] + s[1..];
      InsertedAfter(x, s, rest);
      SortedCons(s[0], rest);
      [s[0]] + rest
  }

  /** What is not above the first element of a sorted sequence is not
      above any. */
  lemma BelowFirst(x: string, s: seq<string>)
    requires Sorted(s) && s != [] && StrLe(x, s[0])
    ensures forall j :: 0 <= j < |s| ==> StrLe(x, s[j])
  {
    forall j | 0 < j < |s|
      ensures StrLe(x, s[j])
    {
      if x != s[0] && s[0] != s[j] {
        StrLtTransitive(x, s[0], s[j]);
      }
    }
  }

  /** What is inserted after the first element of a sorted sequence is not
      below it. */
  lemma InsertedAfter(x: string, s: seq<string>, rest: seq<string>)
    requires Sorted(s) && s != [] && StrLe(s[0], x)
    requires multiset(rest) == multiset(s[1..]) + multiset{x}
    ensures forall j :: 0 <= j < |rest| ==> StrLe(s[0], rest[j])
  {
    forall j | 0 <= j < |rest|
      ensures StrLe(s[0], rest[j])
    {
      assert rest[j] in multiset(rest);
      if rest[j] != x {
        assert rest[j] in multiset(s[1..]);
        var k :| 0 <= k < |s[1..]| && s[1..][k] == rest[j];
        assert s[k + 1] == rest[j];
      }
    }
  }

  lemma SortedCons(h: string, rest: seq<string>)
    requires Sorted(rest) && forall j :: 0 <= j < |rest| ==> StrLe(h, rest[j])
    ensures Sorted([h] + rest)
  {
    forall i, j | 0 <= i < j < |[h] + rest|
      ensures StrLe(([h] + rest)[i], ([h] + rest)[j])
    {
      if i > 0 {
        assert ([h] + rest)[i] == rest[i - 1];
      }
      assert ([h] + rest)[j] == rest[j - 1];
    }
  }

  /** `sorted(values)`. */
  function Sort(s: seq<string>): (r: seq<string>)
    ensures Sorted(r) && multiset(r) == multiset(s)
  {
    if s == [] then []
    else
      assert s == [s[0]] + s[1..];
      Insert(s[0], Sort(s[1..]))
  }

  /** A sorted arrangement of a multiset of strings is unique, so `Sort`
      gives what Python's `sorted` gives. */
  lemma {:induction false} SortedUnique(a: seq<string>, b: seq<string>)
    requires Sorted(a) && Sorted(b) && multiset(a) == multiset(b)
    ensures a == b
  {
    if a != [] {
      assert a[0] in multiset(a);
      SortedFirstLeast(b, a[0]);
      SortedFirstLeast(a, b[0]);
      StrLtTotal(a[0], b[0]);
      TailMultiset(a);
      TailMultiset(b);
      SortedUnique(a[1..], b[1..]);
      assert a == [a[0]] + a[1..] && b == [b[0]] + b[1..];
    }
  }

  /** The first element of a sorted sequence is its least. */
  lemma SortedFirstLeast(s: seq<string>, x: string)
    requires Sorted(s) && x in multiset(s)
    ensures s != [] && StrLe(s[0], x)
  {
    var i :| 0 <= i < |s| && s[i] == x;
  }

  /** Dropping the head takes one copy of it out of the multiset. */
  lemma TailMultiset(s: seq<string>)
    requires s != []
    ensures multiset(s[1..]) == multiset(s) - multiset{s[0]}
  {
    assert s == [s[0]] + s[1..];
  }

  /** The distinct elements of a sorted sequence, in order: with `Sort`,
      `sorted(set(values))`. */
  function Distinct(s: seq<string>): (r: seq<string>)
    requires Sorted(s)
    ensures StrictlySorted(r) && forall x :: x in r <==> x in s
    ensures s != [] ==> r != [] && r[0] == s[0]
  {
    if |s| <= 1 then s
    else if s[0] == s[1] then Distinct(s[1..])
    else
      var rest := Distinct(s[1..]);
      assert forall j :: 0 <= j < |rest| ==> StrLt(s[0], rest[j]) by {
        forall j | 0 <= j < |rest| ensures StrLt(s[0], rest[j]) {
          assert rest[j] in rest;
          var k :| 0 <= k < |s[1..]| && s[1..][k] == rest[j];
          assert StrLe(s[0], s[1]) && StrLe(s[1], s[k + 1]);
          if s[1] != s[k + 1] {
            StrLtTransitive(s[0], s[1], s[k + 1]);
          }
        }
      }
      [s[0]] + rest
  }

  /** A value collected more than once, as the metadata keeps it: sorted,
      duplicates kept, a single value unwrapped. */
  function CollapseMetadata(values: seq<string>): Value {
    var sorted := Sort(values);
    if |sorted| == 1 then Str(sorted[0]) else List(StrList(sorted))
  }

  /** A value collected more than once, as a construct's property keeps it:
      sorted without duplicates, a single value unwrapped. */
  function CollapseProperty(values: seq<string>): Value {
    var sorted := Distinct(Sort(values));
    if |sorted| == 1 then Str(sorted[0]) else List(StrList(sorted))
  }

  /** The strings of a list of strings. */
  predicate AllStr(items: seq<Value>) {
    forall i :: 0 <= i < |items| ==> items[i].Str?
  }

  function Strings(items: seq<Value>): (r: seq<string>)
    requires AllStr(items)
    ensures |r| == |items| && forall i :: 0 <= i < |items| ==> items[i] == Str(r[i])
  {
    if items == [] then [] else [items[0].s] + Strings(items[1..])
  }

  /** The metadata collapse unwraps exactly the one-element lists and
      otherwise keeps every value, in sorted order. */
  lemma CollapseMetadataMeaning(values: seq<string>)
    ensures CollapseMetadata(values).Str? <==> |values| == 1
    ensures |values| == 1 ==> CollapseMetadata(values) == Str(values[0])
    ensures CollapseMetadata(values).List? ==>
              var r := Strings(CollapseMetadata(values).items);
              Sorted(r) && multiset(r) == multiset(values)
  {
    var sorted := Sort(values);
    assert |sorted| == |multiset(sorted)| == |multiset(values)| == |values|;
    if |values| == 1 {
      assert sorted[0] in multiset(values);
    }
    if CollapseMetadata(values).List? {
      var r := Strings(CollapseMetadata(values).items);
      assert r == sorted;
    }
  }

  /** Sorting keeps the elements. */
  lemma SortMembers(values: seq<string>)
    ensures forall x :: x in Sort(values) <==> x in values
  {
    forall x ensures x in Sort(values) <==> x in values {
      assert x in Sort(values) <==> x in multiset(Sort(values));
    }
  }

  /** The property collapse unwraps exactly the lists of a single distinct
      value and otherwise keeps each distinct value once, in strictly
      increasing order. */
  lemma CollapsePropertyMeaning(values: seq<string>)
    ensures CollapseProperty(values).Str? <==> values != [] && forall i :: 0 <= i < |values| ==> values[i] == values[0]
    ensures CollapseProperty(values).Str? ==> CollapseProperty(values) == Str(values[0])
    ensures CollapseProperty(values).List? ==>
              var r := Strings(CollapseProperty(values).items);
              StrictlySorted(r) && forall x :: x in r <==> x in values
  {
    var d := Distinct(Sort(values));
    SortMembers(values);
    assert forall x :: x in d <==> x in values;
    if CollapseProperty(values).List? {
      assert Strings(CollapseProperty(values).items) == d;
    }
    if values != [] && forall i :: 0 <= i < |values| ==> values[i] == values[0] {
      assert values[0] in d;
      if |d| > 1 {
        assert d[0] in values && d[1] in values;
        StrLtTotal(d[0], d[1]);
      }
    }
    if |d| == 1 {
      assert d[0] in values;
      forall i | 0 <= i < |values| ensures values[i] == values[0] {
        assert values[i] in d && values[0] in d;
      }
    }
  }

  /** Collapsing a collapsed list again changes nothing. */
  lemma CollapsePropertyIdempotent(values: seq<string>)
    requires CollapseProperty(values).List?
    ensures CollapseProperty(Strings(CollapseProperty(values).items)) == CollapseProperty(values)
  {
    var r := Strings(CollapseProperty(values).items);
    CollapsePropertyMeaning(values);
    assert Sorted(r);
    assert multiset(Sort(r)) == multiset(r);
    SortedUnique(Sort(r), r);
    DistinctStrict(r);
  }

  /** Collapsing a collapsed metadata list again changes nothing. */
  lemma CollapseMetadataIdempotent(values: seq<string>)
    requires CollapseMetadata(values).List?
    ensures CollapseMetadata(Strings(CollapseMetadata(values).items)) == CollapseMetadata(values)
  {
    var r := Strings(CollapseMetadata(values).items);
    assert r == Sort(values);
    SortedUnique(Sort(r), r);
  }

  /** A strictly sorted sequence has no duplicates to drop. */
  lemma {:induction false} DistinctStrict(s: seq<string>)
    requires StrictlySorted(s)
    ensures Distinct(s) == s
  {
    if |s| > 1 {
      StrLtTotal(s[0], s[1]);
      DistinctStrict(s[1..]);
    }
  }

  /** Every list value holds only strings: the values the collapse sorts. */
  predicate StringLists(es: Entries) {
    forall i :: 0 <= i < |es| && es[i].1.List? ==> AllStr(es[i].1.items)
  }

  function CollapseMetadataValue(v: Value): Value
    requires v.List? ==> AllStr(v.items)
  {
    if v.List? then CollapseMetadata(Strings(v.items)) else v
  }

  /** The "Ensure lists are properly formatted" loop over the metadata:
      every list value is collapsed in place. */
  method CollapseMetadataLists(metadata: Dict)
    requires StringLists(metadata.entries)
    modifies metadata
    ensures |metadata.entries| == |old(metadata.entries)|
    ensures forall i :: 0 <= i < |metadata.entries| ==>
              metadata.entries[i] == (old(metadata.entries)[i].0, CollapseMetadataValue(old(metadata.entries)[i].1))
  {
    var i := 0;
    while i < |metadata.entries|
      invariant 0 <= i <= |metadata.entries| == |old(metadata.entries)|
      invariant forall k :: 0 <= k < i ==>
                  metadata.entries[k] == (old(metadata.entries)[k].0, CollapseMetadataValue(old(metadata.entries)[k].1))
      invariant forall k :: i <= k < |metadata.entries| ==> metadata.entries[k] == old(metadata.entries)[k]
    {
      var (key, v) := metadata.entries[i];
      if v.List? {
        var values := Sort(Strings(v.items));
        metadata.entries := metadata.entries[i := (key, if |values| == 1 then Str(values[0]) else List(StrList(values)))];
      }
      i := i + 1;
    }
  }

  function CollapsePropertyValue(v: Value): Value
    requires v.List? ==> AllStr(v.items)
  {
    if v.List? then CollapseProperty(Strings(v.items)) else v
  }

  /** Every instance of every construct table holds lists of strings only. */
  predicate ConstructStringLists(constructs: Entries) {
    forall i :: 0 <= i < |constructs| ==> InstancesStringLists(constructs[i].1)
  }

  predicate InstancesStringLists(instances: Value) {
    instances.Table? && forall j :: 0 <= j < |instances.entries| ==>
      instances.entries[j].1.Table? && StringLists(instances.entries[j].1.entries)
  }

  /** One instance's properties, every list collapsed. */
  function CollapsedInstance(props: Entries): (r: Entries)
    requires StringLists(props)
    ensures |r| == |props|
  {
    seq(|props|, k requires 0 <= k < |props| => (props[k].0, CollapsePropertyValue(props[k].1)))
  }

  /** The innermost loop: one instance's properties. */
  method CollapseInstanceLists(props: Entries) returns (r: Entries)
    requires StringLists(props)
    ensures r == CollapsedInstance(props)
  {
    r := props;
    var k := 0;
    while k < |props|
      invariant 0 <= k <= |props| && |r| == |props|
      invariant forall m :: 0 <= m < k ==> r[m] == (props[m].0, CollapsePropertyValue(props[m].1))
      invariant forall m :: k <= m < |props| ==> r[m] == props[m]
    {
      var (key, v) := props[k];
      if v.List? {
        var values := Distinct(Sort(Strings(v.items)));
        r := r[k := (key, if |values| == 1 then Str(values[0]) else List(StrList(values)))];
      }
      k := k + 1;
    }
  }

  /** The middle loop: every instance of one construct table. */
  method CollapseTableLists(instances: Entries) returns (r: Entries)
    requires InstancesStringLists(Table(instances))
    ensures |r| == |instances|
    ensures forall j :: 0 <= j < |instances| ==> r[j] == (instances[j].0, Table(CollapsedInstance(instances[j].1.entries)))
  {
    r := instances;
    var j := 0;
    while j < |instances|
      invariant 0 <= j <= |instances| && |r| == |instances|
      invariant forall m :: 0 <= m < j ==> r[m] == (instances[m].0, Table(CollapsedInstance(instances[m].1.entries)))
      invariant forall m :: j <= m < |instances| ==> r[m] == instances[m]
    {
      var collapsed := CollapseInstanceLists(instances[j].1.entries);
      r := r[j := (instances[j].0, Table(collapsed))];
      j := j + 1;
    }
  }

  /** The "Ensure lists are properly formatted" loops over the constructs:
      every list value of every instance is collapsed in place. */
  method CollapseConstructLists(constructs: Dict)
    requires ConstructStringLists(constructs.entries)
    modifies constructs
    ensures |constructs.entries| == |old(constructs.entries)|
    ensures forall i :: 0 <= i < |constructs.entries| ==>
              var (ctype, instances) := old(constructs.entries)[i];
              && constructs.entries[i].0 == ctype
              && constructs.entries[i].1.Table? && |constructs.entries[i].1.entries| == |instances.entries|
              && forall j :: 0 <= j < |instances.entries| ==>
                   constructs.entries[i].1.entries[j] == (instances.entries[j].0, Table(CollapsedInstance(instances.entries[j].1.entries)))
  {
    var i := 0;
    while i < |constructs.entries|
      invariant 0 <= i <= |constructs.entries| == |old(constructs.entries)|
      invariant forall k :: 0 <= k < i ==>
                  var (ctype, instances) := old(constructs.entries)[k];
                  && constructs.entries[k].0 == ctype
                  && constructs.entries[k].1.Table? && |constructs.entries[k].1.entries| == |instances.entries|
                  && forall j :: 0 <= j < |instances.entries| ==>
                       constructs.entries[k].1.entries[j] == (instances.entries[j].0, Table(CollapsedInstance(instances.entries[j].1.entries)))
      invariant forall k :: i <= k < |constructs.entries| ==> constructs.entries[k] == old(constructs.entries)[k]
    {
      var (ctype, instances) := constructs.entries[i];
      var collapsed := CollapseTableLists(instances.entries);
      constructs.entries := constructs.entries[i := (ctype, Table(collapsed))];
      i := i + 1;
    }
  }
}
