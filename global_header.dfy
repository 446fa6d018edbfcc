/** The application header's whole-workbook import and export
    (src/components/GlobalHeader.tsx). Import stores every sheet of a workbook
    in the companion snapshot and, when a mutator sheet exists, replaces the
    mutator list with its rows. Export gathers the snapshot, the mutator list
    and the tag map into one object of sheets. */
module GlobalHeader {
  import opened Wrappers
  import opened Js
  import Text
  import Seqs
  import opened Storage
  import opened Mutators
  import opened ExcelImport
  import Tags

  // ---------------------------------------------------------------------
  // Import
  // ---------------------------------------------------------------------

  /** A sheet's rows as they are stored: an array of row objects. */
  function SheetJson(rows: seq<Row>): (j: Json)
    ensures j.Arr? && |j.items| == |rows|
    ensures forall i :: 0 <= i < |rows| ==> j.items[i] == Obj(rows[i])
  {
    Arr(seq(|rows|, i requires 0 <= i < |rows| => Obj(rows[i])))
  }

  /** The record the header importer builds from row `index`. Unlike the page
      importer it reads the tag from `Mutator_tags` first, and applies the
      rarity check to the text of the cell. */
  function HeaderImportRow(row: Row, now: nat, index: nat): (m: Mutator)
    ensures m.id == ImportedId(now, index)
    ensures "Mutator_name" in row && Truthy(row["Mutator_name"]) ==> m.name == ToText(row["Mutator_name"])
    ensures !("Mutator_name" in row && Truthy(row["Mutator_name"])) ==> m.name == DefaultName(index)
    ensures m.description == CellText(row, "Mutator") && m.strategy == CellText(row, "Strategy")
    ensures m.goodChampions == CellText(row, "Good_champions") && m.badChampions == CellText(row, "Bad_champions")
    ensures "Mutator_tags" in row && Truthy(row["Mutator_tags"]) ==> m.tag == Some(ToText(row["Mutator_tags"]))
    ensures !("Mutator_tags" in row && Truthy(row["Mutator_tags"])) ==> m.tag == Some(CellText(row, "Tag"))
    ensures var t := ToText(Or(Get(row, "Rarity"), Str("Common")));
      && (t in {"Common", "Rare", "Epic", "Legendary"} ==> RarityName(m.rarity) == t)
      && (t !in {"Common", "Rare", "Epic", "Legendary"} ==> m.rarity == Common)
  {
    Mutator(
      ImportedId(now, index),
      ToText(Or(Get(row, "Mutator_name"), Str(DefaultName(index)))),
      ParseRarity(ToText(Or(Get(row, "Rarity"), Str("Common")))),
      CellText(row, "Mutator"),
      CellText(row, "Good_champions"),
      CellText(row, "Bad_champions"),
      CellText(row, "Strategy"),
      Some(ToText(Or(Get(row, "Mutator_tags"), Or(Get(row, "Tag"), Str(""))))))
  }

  function HeaderImportRows(rows: seq<Row>, now: nat): (ms: seq<Mutator>)
    ensures |ms| == |rows|
    ensures forall i :: 0 <= i < |rows| ==> ms[i] == HeaderImportRow(rows[i], now, i)
  {
    seq(|rows|, i requires 0 <= i < |rows| => HeaderImportRow(rows[i], now, i))
  }

  /** The records of one header import carry pairwise distinct ids. */
  lemma HeaderImportIdsDistinct(rows: seq<Row>, now: nat)
    ensures DistinctIds(HeaderImportRows(rows, now))
  {
    var ms := HeaderImportRows(rows, now);
    forall i, j | 0 <= i < j < |ms| ensures ms[i].id != ms[j].id {
      if ms[i].id == ms[j].id {
        ImportedIdInjective(now, i, now, j);
      }
    }
  }

  /** `allData` once every sheet has been read: each sheet's rows under its name. */
  function AllSheets(wb: Workbook): map<string, Json> {
    map n | n in wb.sheetNames :: SheetJson(SheetRows(wb, n))
  }

  /** The store after an import. */
  function Imported(entries: map<string, Entry>, wb: Workbook, now: nat): map<string, Entry> {
    var found := FindMutatorSheet(wb.sheetNames);
    var withMutators :=
      if found.Some? then
        entries[MutatorsKey := Parsed(EncodeMutators(HeaderImportRows(SheetRows(wb, wb.sheetNames[found.value]), now)))]
      else entries;
    withMutators[CompanionKey := Parsed(Obj(AllSheets(wb)))]
  }

  /** The snapshot holds every sheet verbatim under its own name, and nothing else. */
  lemma ImportStoresEverySheet(entries: map<string, Entry>, wb: Workbook, now: nat)
    ensures CompanionKey in Imported(entries, wb, now)
    ensures
      var after := Imported(entries, wb, now)[CompanionKey];
      && after.Parsed? && after.value.Obj?
      && (forall n :: n in after.value.fields <==> n in wb.sheetNames)
      && forall k :: 0 <= k < |wb.sheetNames| ==>
           after.value.fields[wb.sheetNames[k]] == SheetJson(SheetRows(wb, wb.sheetNames[k]))
  {
  }

  /** Without a sheet whose name mentions mutators the mutator list is left
      alone: there is no fallback to the first sheet. */
  lemma ImportWithoutMutatorSheet(entries: map<string, Entry>, wb: Workbook, now: nat)
    requires forall k :: 0 <= k < |wb.sheetNames| ==> !IsMutatorSheetName(wb.sheetNames[k])
    ensures MutatorsKey in Imported(entries, wb, now) <==> MutatorsKey in entries
    ensures MutatorsKey in entries ==> Imported(entries, wb, now)[MutatorsKey] == entries[MutatorsKey]
  {
  }

  /** With a mutator sheet, the list the next load installs is exactly the
      imported rows: the old list is replaced, not extended. */
  lemma ImportReplacesMutators(entries: map<string, Entry>, wb: Workbook, now: nat, k: nat)
    requires k < |wb.sheetNames| && IsMutatorSheetName(wb.sheetNames[k])
    requires forall j :: 0 <= j < k ==> !IsMutatorSheetName(wb.sheetNames[j])
    ensures LoadMutators(Imported(entries, wb, now)) == HeaderImportRows(SheetRows(wb, wb.sheetNames[k]), now)
  {
    var ms := HeaderImportRows(SheetRows(wb, wb.sheetNames[k]), now);
    assert FindMutatorSheet(wb.sheetNames) == Some(k);
    DecodeEncodeMutators(ms);
  }

  /** `handleExcelImport`: read every sheet into `allData` one at a time,
      write the mutator list when a mutator sheet exists, then the snapshot. */
  method ImportWorkbook(store: Store, wb: Workbook, now: nat)
    modifies store
    ensures store.entries == Imported(old(store.entries), wb, now)
  {
    var names := wb.sheetNames;
    var allData: map<string, Json> := map[];
    var i := 0;
    while i < |names|
      invariant 0 <= i <= |names|
      invariant allData.Keys == set n | n in names[..i]
      invariant forall n :: n in allData ==> allData[n] == SheetJson(SheetRows(wb, n))
    {
      assert names[..i + 1] == names[..i] + [names[i]];
      allData := allData[names[i] := SheetJson(SheetRows(wb, names[i]))];
      i := i + 1;
    }
    assert names[..i] == names;
    assert allData == AllSheets(wb);
    var found := FindMutatorSheet(names);
    if found.Some? {
      var rows := SheetRows(wb, names[found.value]);
      store.Save(MutatorsKey, EncodeMutators(HeaderImportRows(rows, now)));
    }
    store.Save(CompanionKey, Obj(allData));
  }

  /** A record exported to a `Mutators` row and imported again through the
      header comes back with a fresh id and its tag made explicit, provided it
      has a name (an empty name is replaced by the default). */
  lemma HeaderImportOfExportRow(m: Mutator, now: nat, index: nat)
    requires m.name != ""
    ensures HeaderImportRow(ExportRow(m), now, index) == m.(id := ImportedId(now, index), tag := Some(TagText(m.tag)))
  {
    ParseRarityName(m.rarity);
  }

  /** Through the page importer the same row loses its tag: it is read from
      `Tag`, while the export writes it to `Mutator_tags`. */
  lemma PageImportOfExportRow(m: Mutator, now: nat, index: nat)
    requires m.name != ""
    ensures PageImportRow(ExportRow(m), now, index) == m.(id := ImportedId(now, index), tag := Some(""))
  {
    ParseRarityName(m.rarity);
  }

  // ---------------------------------------------------------------------
  // Export
  // ---------------------------------------------------------------------

  /** `NoData`: nothing stored under any of the three keys. `Failed`: an
      exception inside the `try` (unparsable text, a property read on `null`,
      `map` on a non-array). */
  datatype ExportError = NoData | Failed

  /** `{ [to]: f[from] }`, or nothing when `f[from]` is `undefined`. */
  function Renamed(f: map<string, Json>, from: string, to: string): (r: Row)
    ensures to in r <==> from in f
    ensures to in r ==> r[to] == f[from]
    ensures r.Keys <= {to}
  {
    if from in f then map[to := f[from]] else map[]
  }

  /** One `Mutators` row built from a stored record by `handleExportData`.
      Fields the record lacks are left out; the tag column is always present.
      (With every field present, the union below is the full column map.) */
  function ExportRowJson(v: Json): (r: Result<Row, ExportError>)
    ensures r.Err? <==> v.Null?
    ensures r.Ok? ==> "Mutator_tags" in r.value
  {
    if v.Null? then Err(Failed)
    else
      var f := if v.Obj? then v.fields else map[];
      var tag := Or(Get(f, "tag"), Str(""));
      if "name" in f && "rarity" in f && "description" in f && "goodChampions" in f
         && "badChampions" in f && "strategy" in f then
        Ok(MutatorRow(f["name"], f["rarity"], f["description"], f["goodChampions"],
                      f["badChampions"], f["strategy"], tag))
      else
        Ok(Renamed(f, "name", "Mutator_name") + Renamed(f, "rarity", "Rarity")
           + Renamed(f, "description", "Mutator") + Renamed(f, "goodChampions", "Good_champions")
           + Renamed(f, "badChampions", "Bad_champions") + Renamed(f, "strategy", "Strategy")
           + map["Mutator_tags" := tag])
  }

  /** The stored list mapped row by row; fails on the first `null` element. */
  function ExportRowsJson(items: seq<Json>): (r: Result<seq<Json>, ExportError>)
    ensures r.Err? <==> exists i :: 0 <= i < |items| && items[i].Null?
    ensures r.Ok? ==> |r.value| == |items|
    ensures r.Ok? ==> forall i :: 0 <= i < |items| ==> r.value[i] == Obj(ExportRowJson(items[i]).value)
  {
    if items == [] then Ok([])
    else
      var head, rest := ExportRowJson(items[0]), ExportRowsJson(items[1..]);
      if head.Err? then Err(head.error)
      else if rest.Err? then
        NullInTail(items);
        Err(rest.error)
      else
        assert forall i :: 1 <= i < |items| ==> items[i] == items[1..][i - 1];
        Ok([Obj(head.value)] + rest.value)
  }

  lemma NullInTail(items: seq<Json>)
    requires items != [] && exists j :: 0 <= j < |items[1..]| && items[1..][j].Null?
    ensures exists i :: 0 <= i < |items| && items[i].Null?
  {
    var j :| 0 <= j < |items[1..]| && items[1..][j].Null?;
    assert items[j + 1].Null?;
  }

  /** A record the registry stored exports to the row the registry's own
      projection holds for it. */
  lemma ExportRowJsonOfEncoded(m: Mutator)
    ensures ExportRowJson(EncodeMutator(m)) == Ok(ExportRow(m))
  {
    var f := EncodeMutator(m).fields;
    assert "name" in f && f["name"] == Str(m.name);
    assert "rarity" in f && f["rarity"] == Str(RarityName(m.rarity));
    assert "description" in f && f["description"] == Str(m.description);
    assert "goodChampions" in f && f["goodChampions"] == Str(m.goodChampions);
    assert "badChampions" in f && f["badChampions"] == Str(m.badChampions);
    assert "strategy" in f && f["strategy"] == Str(m.strategy);
    assert Or(Get(f, "tag"), Str("")) == Str(TagText(m.tag));
  }

  /** The list the registry stored exports to its projection, one row per
      record in order. */
  lemma ExportRowsOfEncoded(ms: seq<Mutator>)
    ensures ExportRowsJson(EncodeMutators(ms).items) == Ok(ExportRows(ms))
  {
    var items := EncodeMutators(ms).items;
    forall i | 0 <= i < |ms| ensures ExportRowJson(items[i]) == Ok(ExportRow(ms[i])) {
      ExportRowJsonOfEncoded(ms[i]);
    }
    assert forall i :: 0 <= i < |items| ==> items[i].Obj?;
    var r := ExportRowsJson(items);
    assert r.Ok?;
    assert r.value == ExportRows(ms);
  }

  /** One `Tags` row: the name, and each list or `""` when it is falsy or absent. */
  function TagRow(name: string, v: Json): (r: Row)
    requires !v.Null?
    ensures r.Keys == {"Tag_name", "Good_champions", "Bad_champions"}
    ensures r["Tag_name"] == Str(name)
    ensures v.Obj? && "goodChampions" in v.fields && Truthy(v.fields["goodChampions"]) ==>
      r["Good_champions"] == v.fields["goodChampions"]
    ensures !(v.Obj? && "goodChampions" in v.fields && Truthy(v.fields["goodChampions"])) ==>
      r["Good_champions"] == Str("")
    ensures v.Obj? && "badChampions" in v.fields && Truthy(v.fields["badChampions"]) ==>
      r["Bad_champions"] == v.fields["badChampions"]
    ensures !(v.Obj? && "badChampions" in v.fields && Truthy(v.fields["badChampions"])) ==>
      r["Bad_champions"] == Str("")
  {
    var f := if v.Obj? then v.fields else map[];
    map["Tag_name" := Str(name),
        "Good_champions" := Or(Get(f, "goodChampions"), Str("")),
        "Bad_champions" := Or(Get(f, "badChampions"), Str(""))]
  }

  /** The rows for the tag entries taken in the order `order`. */
  function TagRows(fields: map<string, Json>, order: seq<string>): (r: seq<Json>)
    requires forall i :: 0 <= i < |order| ==> order[i] in fields && !fields[order[i]].Null?
    ensures |r| == |order|
    ensures forall i :: 0 <= i < |order| ==> r[i] == Obj(TagRow(order[i], fields[order[i]]))
  {
    seq(|order|, i requires 0 <= i < |order| => Obj(TagRow(order[i], fields[order[i]])))
  }

  /** `order` lists every key of `keys` exactly once. */
  predicate Enumerates(order: seq<string>, keys: set<string>) {
    && Seqs.NoDuplicates(order)
    && (forall i :: 0 <= i < |order| ==> order[i] in keys)
    && (forall k :: k in keys ==> k in order)
  }

  /** The snapshot part of the export: the stored object, or `{}` when absent. */
  function SnapshotPart(entries: map<string, Entry>): Result<map<string, Json>, ExportError> {
    if CompanionKey !in entries then Ok(map[])
    else
      match entries[CompanionKey]
      case Parsed(Obj(fields)) => Ok(fields)
      case _ => Err(Failed)
  }

  /** The mutator rows, when a list is stored. */
  function MutatorsPart(entries: map<string, Entry>): Result<Option<seq<Json>>, ExportError> {
    if MutatorsKey !in entries then Ok(None)
    else
      match entries[MutatorsKey]
      case Parsed(Arr(items)) =>
        (match ExportRowsJson(items)
         case Ok(rows) => Ok(Some(rows))
         case Err(e) => Err(e))
      case _ => Err(Failed)
  }

  /** The entries `Object.entries` yields for the stored tag map, when one is stored. */
  function TagsPart(entries: map<string, Entry>): (r: Result<Option<map<string, Json>>, ExportError>)
    ensures r.Ok? && r.value.Some? ==> forall k :: k in r.value.value ==> !r.value.value[k].Null?
  {
    if TagsKey !in entries then Ok(None)
    else
      match entries[TagsKey]
      case Parsed(Obj(fields)) =>
        if forall k :: k in fields ==> !fields[k].Null? then Ok(Some(fields)) else Err(Failed)
      case Parsed(Num(_)) => Ok(Some(map[]))
      case Parsed(Bool(_)) => Ok(Some(map[]))
      case _ => Err(Failed)
  }

  /** The object of sheets `handleExportData` hands to the spreadsheet library,
      given the order in which the tag entries are enumerated. */
  function ExportSheets(entries: map<string, Entry>, tagOrder: seq<string>): Result<map<string, Json>, ExportError>
    requires TagsPart(entries).Ok? && TagsPart(entries).value.Some? ==>
      forall i :: 0 <= i < |tagOrder| ==> tagOrder[i] in TagsPart(entries).value.value
  {
    if CompanionKey !in entries && MutatorsKey !in entries && TagsKey !in entries then Err(NoData)
    else if SnapshotPart(entries).Err? || MutatorsPart(entries).Err? || TagsPart(entries).Err? then Err(Failed)
    else
      var data := SnapshotPart(entries).value;
      var withMutators :=
        if MutatorsPart(entries).value.Some? then data["Mutators" := Arr(MutatorsPart(entries).value.value)] else data;
      if TagsPart(entries).value.Some? then
        Ok(withMutators["Tags" := Arr(TagRows(TagsPart(entries).value.value, tagOrder))])
      else Ok(withMutators)
  }

  /** What the export produces: the sheet names in the order they are
      appended, and the object of sheets. */
  datatype Export = Export(sheetNames: seq<string>, sheets: map<string, Json>)

  /** Lists the keys of `keys` in some order, as `Object.keys` does. */
  method EnumerateKeys(keys: set<string>) returns (order: seq<string>)
    ensures Enumerates(order, keys)
  {
    order := [];
    var left := keys;
    while left != {}
      invariant left <= keys
      invariant Seqs.NoDuplicates(order)
      invariant forall i :: 0 <= i < |order| ==> order[i] in keys && order[i] !in left
      invariant forall k :: k in keys ==> k in left || k in order
      decreases left
    {
      var k :| k in left;
      order := order + [k];
      left := left - {k};
    }
  }

  /** `handleExportData`. */
  method ExportData(entries: map<string, Entry>) returns (r: Result<Export, ExportError>)
    ensures r == Err(NoData) <==> CompanionKey !in entries && MutatorsKey !in entries && TagsKey !in entries
    ensures r.Err? <==> ExportSheets(entries, []).Err?
    ensures r.Ok? ==>
      && Enumerates(r.value.sheetNames, r.value.sheets.Keys)
      && exists tagOrder ::
           && (TagsPart(entries).value.Some? ==> Enumerates(tagOrder, TagsPart(entries).value.value.Keys))
           && ExportSheets(entries, tagOrder) == Ok(r.value.sheets)
  {
    if CompanionKey !in entries && MutatorsKey !in entries && TagsKey !in entries {
      return Err(NoData);
    }
    var snapshot := SnapshotPart(entries);
    if snapshot.Err? {
      return Err(Failed);
    }
    var data := snapshot.value;
    var mutatorRows := MutatorsPart(entries);
    if mutatorRows.Err? {
      return Err(Failed);
    }
    if mutatorRows.value.Some? {
      data := data["Mutators" := Arr(mutatorRows.value.value)];
    }
    var tags := TagsPart(entries);
    if tags.Err? {
      return Err(Failed);
    }
    var tagOrder: seq<string> := [];
    if tags.value.Some? {
      var fields := tags.value.value;
      tagOrder := EnumerateKeys(fields.Keys);
      var rows: seq<Json> := [];
      var i := 0;
      while i < |tagOrder|
        invariant 0 <= i <= |tagOrder|
        invariant rows == TagRows(fields, tagOrder[..i])
      {
        rows := rows + [Obj(TagRow(tagOrder[i], fields[tagOrder[i]]))];
        i := i + 1;
      }
      assert tagOrder[..|tagOrder|] == tagOrder;
      data := data["Tags" := Arr(rows)];
    }
    assert ExportSheets(entries, tagOrder) == Ok(data);
    var sheetNames := EnumerateKeys(data.Keys);
    r := Ok(Export(sheetNames, data));
  }

  /** Exporting what the registries stored: the `Mutators` sheet is the
      registry's projection of its list, one row per record in order with an
      absent tag written as `""`, and the `Tags` sheet has one row per tag. */
  lemma ExportOfStoredData(entries: map<string, Entry>, ms: seq<Mutator>, tags: Tags.TagsDatabase, tagOrder: seq<string>)
    requires CompanionKey in entries ==> entries[CompanionKey].Parsed? && entries[CompanionKey].value.Obj?
    requires MutatorsKey in entries && entries[MutatorsKey] == Parsed(EncodeMutators(ms))
    requires TagsKey in entries && entries[TagsKey] == Parsed(Tags.EncodeTags(tags))
    requires Enumerates(tagOrder, tags.Keys)
    ensures ExportSheets(entries, tagOrder).Ok?
    ensures ExportSheets(entries, tagOrder).value["Mutators"] == Arr(ExportRows(ms))
    ensures
      var rows := ExportSheets(entries, tagOrder).value["Tags"];
      && rows.Arr? && |rows.items| == |tagOrder|
      && forall i :: 0 <= i < |tagOrder| ==>
           rows.items[i] == Obj(map["Tag_name" := Str(tagOrder[i]),
                                    "Good_champions" := Str(tags[tagOrder[i]].goodChampions),
                                    "Bad_champions" := Str(tags[tagOrder[i]].badChampions)])
  {
    StoredParts(entries, ms, tags);
    var fields := Tags.EncodeTags(tags).fields;
    forall i | 0 <= i < |tagOrder|
      ensures TagRow(tagOrder[i], fields[tagOrder[i]]) ==
        map["Tag_name" := Str(tagOrder[i]),
            "Good_champions" := Str(tags[tagOrder[i]].goodChampions),
            "Bad_champions" := Str(tags[tagOrder[i]].badChampions)]
    {
      TagRowOfEncoded(tagOrder[i], tags[tagOrder[i]]);
    }
  }

  /** The three parts read back from stored mutators and tags. */
  lemma StoredParts(entries: map<string, Entry>, ms: seq<Mutator>, tags: Tags.TagsDatabase)
    requires CompanionKey in entries ==> entries[CompanionKey].Parsed? && entries[CompanionKey].value.Obj?
    requires MutatorsKey in entries && entries[MutatorsKey] == Parsed(EncodeMutators(ms))
    requires TagsKey in entries && entries[TagsKey] == Parsed(Tags.EncodeTags(tags))
    ensures SnapshotPart(entries).Ok?
    ensures MutatorsPart(entries) == Ok(Some(ExportRows(ms)))
    ensures TagsPart(entries) == Ok(Some(Tags.EncodeTags(tags).fields))
  {
    StoredMutatorsPart(entries, ms);
    StoredTagsPart(entries, tags);
  }

  lemma StoredMutatorsPart(entries: map<string, Entry>, ms: seq<Mutator>)
    requires MutatorsKey in entries && entries[MutatorsKey] == Parsed(EncodeMutators(ms))
    ensures MutatorsPart(entries) == Ok(Some(ExportRows(ms)))
  {
    ExportRowsOfEncoded(ms);
  }

  lemma StoredTagsPart(entries: map<string, Entry>, tags: Tags.TagsDatabase)
    requires TagsKey in entries && entries[TagsKey] == Parsed(Tags.EncodeTags(tags))
    ensures TagsPart(entries) == Ok(Some(Tags.EncodeTags(tags).fields))
  {
    var fields := Tags.EncodeTags(tags).fields;
    assert forall k :: k in fields ==> fields[k].Obj?;
  }

  /** The tag row built from a stored tag entry carries its two lists. */
  lemma TagRowOfEncoded(name: string, d: Tags.TagData)
    ensures TagRow(name, Tags.EncodeTagData(d)) ==
      map["Tag_name" := Str(name), "Good_champions" := Str(d.goodChampions),
          "Bad_champions" := Str(d.badChampions)]
  {
    var f := Tags.EncodeTagData(d).fields;
    assert Get(f, "goodChampions") == Some(Str(d.goodChampions));
    assert Get(f, "badChampions") == Some(Str(d.badChampions));
  }
}
