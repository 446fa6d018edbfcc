/** The browser's `localStorage` as the data layer uses it: string keys, each
    holding the text of a JSON value. The text itself is abstracted: an entry
    is either a value that `JSON.parse` accepts or text that it rejects. */
module Storage {
  import opened Js

  datatype Entry = Parsed(value: Json) | Malformed

  /** The sheet-shaped snapshot of everything imported, plus synced projections. */
  const CompanionKey: string := "lorCompanionData"
  /** The mutator list. */
  const MutatorsKey: string := "lorMutators"
  /** The tag name to champion-lists map. */
  const TagsKey: string := "lorTags"

  class Store {
    var entries: map<string, Entry>

    constructor (initial: map<string, Entry>)
      ensures entries == initial
    {
      entries := initial;
    }

    /** `localStorage.setItem(key, JSON.stringify(value))`. */
    method Save(key: string, value: Json)
      modifies this
      ensures entries == old(entries)[key := Parsed(value)]
    {
      entries := entries[key := Parsed(value)];
    }

    /** `localStorage.removeItem(key)`. */
    method Remove(key: string)
      modifies this
      ensures entries == old(entries) - {key}
    {
      entries := entries - {key};
    }
  }
}
