/** The tag registry (src/hooks/useTags.tsx): a map from tag name to the
    champions recommended for and against that tag, with insert-or-overwrite,
    lookup, and an effect that persists the whole map after every change. */
module Tags {
  import opened Wrappers
  import opened Js
  import opened Storage

  /** The champion recommendations stored for one tag. */
  datatype TagData = TagData(goodChampions: string, badChampions: string)

  type TagsDatabase = map<string, TagData>

  /** `{ ...prev, [tagName]: data }`. */
  function UpdateTags(tags: TagsDatabase, tagName: string, data: TagData): (r: TagsDatabase)
    ensures r.Keys == tags.Keys + {tagName}
    ensures tagName in r && r[tagName] == data
    ensures forall k :: k in tags && k != tagName ==> r[k] == tags[k]
  {
    tags[tagName := data]
  }

  /** A lookup after an update of the same name answers the stored data. */
  lemma GetAfterUpdate(tags: TagsDatabase, tagName: string, data: TagData, other: string)
    ensures Get(UpdateTags(tags, tagName, data), tagName) == Some(data)
    ensures other != tagName ==> Get(UpdateTags(tags, tagName, data), other) == Get(tags, other)
  {
  }

  /** Updating twice with the same arguments is updating once. */
  lemma UpdateIdempotent(tags: TagsDatabase, tagName: string, data: TagData)
    ensures UpdateTags(UpdateTags(tags, tagName, data), tagName, data) == UpdateTags(tags, tagName, data)
  {
  }

  /** There is no delete: a sequence of updates only ever adds names. */
  lemma {:induction false} UpdatesOnlyGrow(tags: TagsDatabase, updates: seq<(string, TagData)>)
    ensures tags.Keys <= ApplyUpdates(tags, updates).Keys
    ensures forall i :: 0 <= i < |updates| ==> updates[i].0 in ApplyUpdates(tags, updates)
  {
    if updates != [] {
      var p := updates[..|updates| - 1];
      UpdatesOnlyGrow(tags, p);
    }
  }

  /** The map after a sequence of `updateTag` calls. */
  function ApplyUpdates(tags: TagsDatabase, updates: seq<(string, TagData)>): TagsDatabase {
    if updates == [] then tags
    else
      var last := updates[|updates| - 1];
      UpdateTags(ApplyUpdates(tags, updates[..|updates| - 1]), last.0, last.1)
  }

  // ---------------------------------------------------------------------
  // Persistence
  // ---------------------------------------------------------------------

  function EncodeTagData(d: TagData): Json {
    Obj(map["goodChampions" := Str(d.goodChampions), "badChampions" := Str(d.badChampions)])
  }

  /** `JSON.stringify(tags)`: one object field per tag. */
  function EncodeTags(tags: TagsDatabase): Json {
    Obj(map k | k in tags :: EncodeTagData(tags[k]))
  }

  function DecodeTagData(v: Json): Option<TagData> {
    if !v.Obj? then None
    else
      var good, bad := StrField(v.fields, "goodChampions"), StrField(v.fields, "badChampions");
      if good.Some? && bad.Some? then Some(TagData(good.value, bad.value)) else None
  }

  predicate AllTagData(fields: map<string, Json>) {
    forall k :: k in fields ==> DecodeTagData(fields[k]).Some?
  }

  /** Reading the stored map back; `None` when it is not shaped like one. */
  function DecodeTags(v: Json): Option<TagsDatabase> {
    if v.Obj? && AllTagData(v.fields) then
      Some(map k | k in v.fields :: DecodeTagData(v.fields[k]).value)
    else None
  }

  /** The stored map reads back as the map that was stored. */
  lemma DecodeEncodeTags(tags: TagsDatabase)
    ensures DecodeTags(EncodeTags(tags)) == Some(tags)
  {
    var fields := EncodeTags(tags).fields;
    forall k | k in fields ensures DecodeTagData(fields[k]) == Some(tags[k]) {
      DecodeEncodeTagData(tags[k]);
    }
    assert (map k | k in fields :: DecodeTagData(fields[k]).value) == tags;
  }

  /** One stored entry reads back as the entry that was stored. */
  lemma DecodeEncodeTagData(d: TagData)
    ensures DecodeTagData(EncodeTagData(d)) == Some(d)
  {
    var f := EncodeTagData(d).fields;
    assert "goodChampions" in f && f["goodChampions"] == Str(d.goodChampions);
    assert "badChampions" in f && f["badChampions"] == Str(d.badChampions);
  }

  /** The store after the persistence effect. */
  function PersistedTags(entries: map<string, Entry>, tags: TagsDatabase): (r: map<string, Entry>)
    ensures r.Keys == entries.Keys + {TagsKey}
    ensures r[TagsKey] == Parsed(EncodeTags(tags))
    ensures forall k :: k in entries && k != TagsKey ==> r[k] == entries[k]
  {
    entries[TagsKey := Parsed(EncodeTags(tags))]
  }

  /** The map the load effect installs: the stored map when it parses and is
      shaped like one, otherwise the initial empty map. */
  function LoadTags(entries: map<string, Entry>): TagsDatabase {
    if TagsKey in entries && entries[TagsKey].Parsed? then
      var decoded := DecodeTags(entries[TagsKey].value);
      if decoded.Some? then decoded.value else map[]
    else map[]
  }

  /** What was persisted is what the next load installs. */
  lemma LoadAfterPersistTags(entries: map<string, Entry>, tags: TagsDatabase)
    ensures LoadTags(PersistedTags(entries, tags)) == tags
  {
    DecodeEncodeTags(tags);
  }

  class TagRegistry {
    var tags: TagsDatabase
    const store: Store

    /** Mounting the hook: the load effect installs the stored map, then the
        persistence effect writes it back. */
    constructor (store: Store)
      modifies store
      ensures this.store == store
      ensures tags == LoadTags(old(store.entries))
      ensures store.entries == PersistedTags(old(store.entries), tags)
    {
      this.store := store;
      tags := LoadTags(store.entries);
      new;
      store.Save(TagsKey, EncodeTags(tags));
    }

    /** `updateTag`, followed by the persistence effect. */
    method UpdateTag(tagName: string, data: TagData)
      modifies this, store
      ensures tags == UpdateTags(old(tags), tagName, data)
      ensures store.entries == PersistedTags(old(store.entries), tags)
    {
      tags := tags[tagName := data];
      store.Save(TagsKey, EncodeTags(tags));
    }

    /** `getTagData`. */
    function GetTagData(tagName: string): (r: Option<TagData>)
      reads this
      ensures r.Some? <==> tagName in tags
      ensures r.Some? ==> r.value == tags[tagName]
    {
      Get(tags, tagName)
    }
  }
}
