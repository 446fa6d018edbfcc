/** The unified view of the three stored keys (src/hooks/useUnifiedDatabase.tsx):
    loading merges the companion snapshot with the mutator list and the tag
    map, tolerating a key whose text does not parse; `clearAllData` removes
    the three keys; `updateData` sets one field and re-saves the snapshot. */
module UnifiedDatabase {
  import opened Js
  import opened Storage

  /** `Object.assign(target, v)`: an object's fields are copied over the
      target; `null`, numbers and booleans contribute nothing. */
  function Assign(target: map<string, Json>, v: Json): (r: map<string, Json>)
    ensures v.Obj? ==> r.Keys == target.Keys + v.fields.Keys
    ensures v.Obj? ==> forall k :: k in v.fields ==> r[k] == v.fields[k]
    ensures forall k :: k in target && !(v.Obj? && k in v.fields) ==> k in r && r[k] == target[k]
    ensures !v.Obj? ==> r == target
  {
    if v.Obj? then target + v.fields else target
  }

  /** The key holds text that parses. */
  predicate ParsedAt(entries: map<string, Entry>, key: string) {
    key in entries && entries[key].Parsed?
  }

  /** The merged object the load effect installs. */
  function LoadMerge(entries: map<string, Entry>): map<string, Json> {
    var base := if ParsedAt(entries, CompanionKey) then Assign(map[], entries[CompanionKey].value) else map[];
    var withMutators := if ParsedAt(entries, MutatorsKey) then base["mutators" := entries[MutatorsKey].value] else base;
    if ParsedAt(entries, TagsKey) then withMutators["tags" := entries[TagsKey].value] else withMutators
  }

  /** The list and the map stored under their own keys take the place of any
      same-named snapshot field; every other snapshot field is copied as is. */
  lemma LoadMergeFields(entries: map<string, Entry>, k: string)
    ensures ParsedAt(entries, MutatorsKey) ==> LoadMerge(entries)["mutators"] == entries[MutatorsKey].value
    ensures ParsedAt(entries, TagsKey) ==> LoadMerge(entries)["tags"] == entries[TagsKey].value
    ensures k != "mutators" && k != "tags" ==>
      (k in LoadMerge(entries) <==>
        ParsedAt(entries, CompanionKey) && entries[CompanionKey].value.Obj? && k in entries[CompanionKey].value.fields)
    ensures k != "mutators" && k != "tags" && k in LoadMerge(entries) ==>
      LoadMerge(entries)[k] == entries[CompanionKey].value.fields[k]
  {
  }

  /** Text that does not parse under one key is skipped as if the key were
      absent; the other two keys load all the same. */
  lemma LoadToleratesMalformed(entries: map<string, Entry>, key: string)
    requires key == CompanionKey || key == MutatorsKey || key == TagsKey
    ensures LoadMerge(entries[key := Malformed]) == LoadMerge(entries - {key})
  {
    assert forall k :: k != key ==> ParsedAt(entries[key := Malformed], k) == ParsedAt(entries - {key}, k);
  }

  /** After `updateData(k, v)`, the next load sees `v` under `k`, unless `k`
      is one of the two fields the separate keys override. */
  lemma LoadAfterUpdate(entries: map<string, Entry>, data: map<string, Json>, k: string, v: Json)
    requires k != "mutators" && k != "tags"
    ensures LoadMerge(entries[CompanionKey := Parsed(Obj(data[k := v]))])[k] == v
  {
  }

  class UnifiedDatabase {
    var data: map<string, Json>
    const store: Store

    /** Mounting the hook: the load effect builds the merged object step by step. */
    constructor (store: Store)
      ensures this.store == store
      ensures data == LoadMerge(store.entries)
    {
      this.store := store;
      var entries := store.entries;
      var unified: map<string, Json> := map[];
      if CompanionKey in entries {
        match entries[CompanionKey]
        case Parsed(v) => unified := Assign(unified, v);
        case Malformed =>
      }
      if MutatorsKey in entries {
        match entries[MutatorsKey]
        case Parsed(v) => unified := unified["mutators" := v];
        case Malformed =>
      }
      if TagsKey in entries {
        match entries[TagsKey]
        case Parsed(v) => unified := unified["tags" := v];
        case Malformed =>
      }
      data := unified;
    }

    /** `clearAllData`: exactly the three keys are removed, and the in-memory
        object is emptied. */
    method ClearAllData()
      modifies this, store
      ensures data == map[]
      ensures store.entries == old(store.entries) - {CompanionKey, MutatorsKey, TagsKey}
    {
      store.Remove(CompanionKey);
      store.Remove(MutatorsKey);
      store.Remove(TagsKey);
      data := map[];
    }

    /** `updateData(key, value)`: one field set, the whole object saved as the snapshot. */
    method UpdateData(key: string, value: Json)
      modifies this, store
      ensures data == old(data)[key := value]
      ensures store.entries == old(store.entries)[CompanionKey := Parsed(Obj(data))]
    {
      data := data[key := value];
      store.Save(CompanionKey, Obj(data));
    }
  }
}
