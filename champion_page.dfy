/** The champion detail page (src/pages/Champion.tsx): finding a champion of
    the stored roster by name, editing its fields, and saving it back into
    the roster sheet of the companion snapshot. */
module ChampionPage {
  import opened Wrappers
  import opened Js
  import Text
  import opened Storage

  /** The `find` callback holds: the entry's `Champion_name` is exactly `name`. */
  predicate NamedAs(c: Json, name: string) {
    !c.Null? && Member(c, "Champion_name") == Ok(Some(Str(name)))
  }

  /** The `find` callback runs on the entry without throwing and fails. */
  predicate PassedOver(c: Json, name: string) {
    !c.Null? && Member(c, "Champion_name") != Ok(Some(Str(name)))
  }

  /** `roster.find(c => c.Champion_name === name)`. Reading the name of a
      `null` entry throws, which is the `Err` case. */
  function FindByName(items: seq<Json>, name: string): (r: Result<Option<Row>, string>)
    ensures r.Ok? && r.value.Some? ==>
      exists i :: 0 <= i < |items| && items[i] == Obj(r.value.value) && NamedAs(items[i], name)
        && forall k :: 0 <= k < i ==> PassedOver(items[k], name)
    ensures r == Ok(None) <==> forall k :: 0 <= k < |items| ==> PassedOver(items[k], name)
  {
    if items == [] then Ok(None)
    else if items[0].Null? then Err("TypeError: cannot read properties of null")
    else if NamedAs(items[0], name) then Ok(Some(items[0].fields))
    else
      var r := FindByName(items[1..], name);
      FoundInTail(items, name, r);
      r
  }

  /** What the search of the tail finds, the search of the whole list finds
      when the head is passed over. */
  lemma FoundInTail(items: seq<Json>, name: string, r: Result<Option<Row>, string>)
    requires items != [] && PassedOver(items[0], name)
    requires r.Ok? && r.value.Some? ==>
      exists i :: 0 <= i < |items[1..]| && items[1..][i] == Obj(r.value.value) && NamedAs(items[1..][i], name)
        && forall k :: 0 <= k < i ==> PassedOver(items[1..][k], name)
    requires r == Ok(None) <==> forall k :: 0 <= k < |items[1..]| ==> PassedOver(items[1..][k], name)
    ensures r.Ok? && r.value.Some? ==>
      exists i :: 0 <= i < |items| && items[i] == Obj(r.value.value) && NamedAs(items[i], name)
        && forall k :: 0 <= k < i ==> PassedOver(items[k], name)
    ensures r == Ok(None) <==> forall k :: 0 <= k < |items| ==> PassedOver(items[k], name)
  {
    var tail := items[1..];
    assert forall k :: 1 <= k < |items| ==> items[k] == tail[k - 1];
    if r.Ok? && r.value.Some? {
      var i :| 0 <= i < |tail| && tail[i] == Obj(r.value.value) && NamedAs(tail[i], name)
        && forall k :: 0 <= k < i ==> PassedOver(tail[k], name);
      assert items[i + 1] == tail[i];
    }
  }

  /** `data.Roster` of the stored snapshot, when it is a truthy array. */
  function StoredRoster(entries: map<string, Entry>): Option<seq<Json>> {
    if CompanionKey in entries && entries[CompanionKey].Parsed? then
      match Member(entries[CompanionKey].value, "Roster")
      case Ok(Some(Arr(items))) => Some(items)
      case _ => None
    else None
  }

  /** The champion the load effect finds: the first roster entry with exactly
      that name, or none when the roster is missing or the search throws. */
  function LookupChampion(entries: map<string, Entry>, name: string): Option<Row> {
    match StoredRoster(entries)
    case Some(items) =>
      (match FindByName(items, name)
       case Ok(found) => found
       case Err(_) => None)
    case None => None
  }

  /** `roster.map(c => c.Champion_name === champion.Champion_name ? champion : c)`;
      `None` when an entry is `null`, whose name cannot be read. */
  function ReplaceByName(items: seq<Json>, champion: Row): (r: Option<seq<Json>>)
    ensures r.None? <==> exists i :: 0 <= i < |items| && items[i].Null?
    ensures r.Some? ==> |r.value| == |items|
    ensures r.Some? ==> forall i :: 0 <= i < |items| ==>
      r.value[i] == if StrictEquals(Member(items[i], "Champion_name").value, Get(champion, "Champion_name"))
                    then Obj(champion) else items[i]
  {
    if exists i :: 0 <= i < |items| && items[i].Null? then None
    else
      Some(seq(|items|, i requires 0 <= i < |items| =>
        if StrictEquals(Member(items[i], "Champion_name").value, Get(champion, "Champion_name"))
        then Obj(champion) else items[i]))
  }

  /** The store after `handleSave`. Nothing is written without a champion,
      without a stored snapshot, or when the roster is missing or cannot be
      mapped; otherwise only the snapshot's `Roster` sheet changes. */
  function SavedRoster(entries: map<string, Entry>, champion: Option<Row>): (r: map<string, Entry>)
    ensures !SaveWrites(entries, champion) ==> r == entries
    ensures r.Keys == entries.Keys
    ensures forall k :: k in entries && k != CompanionKey ==> r[k] == entries[k]
  {
    if champion.None? || StoredRoster(entries).None? then entries
    else
      match ReplaceByName(StoredRoster(entries).value, champion.value)
      case Some(updated) =>
        var data := entries[CompanionKey].value.fields;
        entries[CompanionKey := Parsed(Obj(data["Roster" := Arr(updated)]))]
      case None => entries
  }

  /** `handleSave` reaches the write. */
  predicate SaveWrites(entries: map<string, Entry>, champion: Option<Row>) {
    champion.Some? && StoredRoster(entries).Some?
    && ReplaceByName(StoredRoster(entries).value, champion.value).Some?
  }

  /** A save keeps the roster's length, puts the edited champion in place of
      every entry with the same name, and leaves every other sheet alone. */
  lemma SaveReplacesByName(entries: map<string, Entry>, champion: Row)
    requires StoredRoster(entries).Some?
    requires forall i :: 0 <= i < |StoredRoster(entries).value| ==> !StoredRoster(entries).value[i].Null?
    ensures StoredRoster(SavedRoster(entries, Some(champion))).Some?
    ensures
      var before := StoredRoster(entries).value;
      var after := StoredRoster(SavedRoster(entries, Some(champion))).value;
      && |after| == |before|
      && forall i :: 0 <= i < |before| ==>
           after[i] == if StrictEquals(Member(before[i], "Champion_name").value, Get(champion, "Champion_name"))
                       then Obj(champion) else before[i]
    ensures
      var data := entries[CompanionKey].value.fields;
      var saved := SavedRoster(entries, Some(champion))[CompanionKey].value.fields;
      && saved.Keys == data.Keys
      && forall k :: k in data && k != "Roster" ==> saved[k] == data[k]
  {
  }

  /** `handleInputChange(field, value)`: one field of the edited record set. */
  function SetField(champion: Option<Row>, field: string, value: Json): (r: Option<Row>)
    ensures r.None? <==> champion.None?
    ensures r.Some? ==> r.value.Keys == champion.value.Keys + {field} && r.value[field] == value
    ensures r.Some? ==> forall k :: k in champion.value && k != field ==> r.value[k] == champion.value[k]
  {
    if champion.None? then None else Some(champion.value[field := value])
  }

  /** The level and fragment inputs: `parseInt(text) || 0`. The field holds a
      number in every case: the typed integer when the text is one written in
      decimal, and 0 when no digit follows the leading white space and sign. */
  function IntegerInput(champion: Option<Row>, field: string, text: string): (r: Option<Row>)
    ensures r.None? <==> champion.None?
    ensures r.Some? ==> r.value.Keys == champion.value.Keys + {field} && r.value[field].Num?
    ensures r.Some? ==> forall k :: k in champion.value && k != field ==> r.value[k] == champion.value[k]
    ensures r.Some? && Text.NoLeadingDigits(text) ==> r.value[field] == Num(0)
    ensures forall n :: r.Some? && text == Text.IntToString(n) ==> r.value[field] == Num(n)
  {
    Text.ParseIntOfEveryIntToString();
    SetField(champion, field, Num(Text.ParseIntOrZero(text)))
  }

  const ReadOnlyFields: set<string> := {"Champion_name", "Region", "Region_2"}
  const CheckboxFields: set<string> :=
    {"Unlocked", "Star_power_1", "Star_power_2", "Star_power_3", "Star_power_4", "Star_power_5", "Star_power_6"}
  const IntegerFields: set<string> := {"Fragments", "Champion_level"}

  /** The keys listed under "Additional Properties". */
  function AdditionalKeys(c: Row): (r: set<string>)
    ensures r <= c.Keys
    ensures forall k :: k in c ==>
      (k in r <==> k !in ReadOnlyFields && k !in CheckboxFields && k !in IntegerFields)
  {
    set k | k in c && k !in ReadOnlyFields && k !in CheckboxFields && k !in IntegerFields
  }

  /** The page's state: the champion shown and whether it is being edited. */
  class ChampionView {
    var champion: Option<Row>
    var editing: bool
    const store: Store

    /** Opening the page, with the champion handed over by the roster page if any. */
    constructor (store: Store, passed: Option<Row>)
      ensures this.store == store && champion == passed && !editing
    {
      this.store := store;
      champion := passed;
      editing := false;
    }

    /** The load effect: without a champion, look the name up in the stored roster. */
    method Load(name: string)
      modifies this
      ensures old(champion).None? && name != "" && LookupChampion(store.entries, name).Some? ==>
        champion == LookupChampion(store.entries, name)
      ensures !(old(champion).None? && name != "" && LookupChampion(store.entries, name).Some?) ==>
        champion == old(champion)
      ensures editing == old(editing)
    {
      if champion.None? && name != "" {
        var found := LookupChampion(store.entries, name);
        if found.Some? {
          champion := found;
        }
      }
    }

    /** The header button: outside edit mode it enters edit mode; in edit
        mode it saves. */
    method EditButton()
      modifies this, store
      ensures !old(editing) ==> editing && unchanged(store) && champion == old(champion)
      ensures old(editing) ==>
        && store.entries == SavedRoster(old(store.entries), champion)
        && champion == old(champion)
        && editing == !SaveWrites(old(store.entries), champion)
    {
      if editing {
        Save();
      } else {
        editing := true;
      }
    }

    /** The Cancel button: leaves edit mode and keeps the edited fields. */
    method Cancel()
      modifies this
      ensures !editing && champion == old(champion)
    {
      editing := false;
    }

    /** `handleInputChange`. */
    method InputChange(field: string, value: Json)
      modifies this
      ensures champion == SetField(old(champion), field, value)
      ensures editing == old(editing)
    {
      if champion.Some? {
        champion := Some(champion.value[field := value]);
      }
    }

    /** `handleSave`: writes the roster back and leaves edit mode when it did. */
    method Save()
      modifies this, store
      ensures store.entries == SavedRoster(old(store.entries), champion)
      ensures champion == old(champion)
      ensures editing == (old(editing) && !SaveWrites(old(store.entries), champion))
    {
      if champion.None? {
        return;
      }
      var roster := StoredRoster(store.entries);
      if roster.None? {
        return;
      }
      var updated := ReplaceByName(roster.value, champion.value);
      if updated.None? {
        return;
      }
      var data := store.entries[CompanionKey].value.fields;
      store.Save(CompanionKey, Obj(data["Roster" := Arr(updated.value)]));
      editing := false;
    }
  }
}
