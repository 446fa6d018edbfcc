/** The page-level spreadsheet importer (src/hooks/useExcelImport.tsx): pick
    the mutator sheet of a workbook and map each of its rows to a mutator
    record, filling gaps with JavaScript `||` defaults. */
module ExcelImport {
  import opened Wrappers
  import opened Js
  import Text
  import opened Mutators

  /** A workbook as the spreadsheet library reads it: the sheet names in
      workbook order, and each sheet's rows as objects keyed by column header. */
  datatype Workbook = Workbook(sheetNames: seq<string>, sheets: map<string, seq<Row>>)

  /** `name.toLowerCase().includes('mutator')`. */
  predicate IsMutatorSheetName(name: string) {
    Text.Contains(Text.Lower(name), "mutator")
  }

  /** A name that passes the rule is never empty, so `find(...) || fallback`
      never falls back once a name is found. */
  lemma MutatorSheetNameNotEmpty(name: string)
    requires IsMutatorSheetName(name)
    ensures name != ""
  {
    var i :| Text.OccursAt(Text.Lower(name), "mutator", i);
  }

  /** `sheetNames.find(isMutatorSheetName)`, as a position. */
  function FindMutatorSheet(names: seq<string>): (r: Option<nat>)
    ensures r.Some? ==> r.value < |names| && IsMutatorSheetName(names[r.value])
    ensures r.Some? ==> forall k :: 0 <= k < r.value ==> !IsMutatorSheetName(names[k])
    ensures r.None? ==> forall k :: 0 <= k < |names| ==> !IsMutatorSheetName(names[k])
  {
    if names == [] then None
    else if IsMutatorSheetName(names[0]) then Some(0)
    else
      match FindMutatorSheet(names[1..])
      case None => None
      case Some(k) => Some(k + 1)
  }

  /** `sheetNames.find(isMutatorSheetName) || sheetNames[0]`, and `None` when
      that is falsy. */
  function ChooseSheet(names: seq<string>): (r: Option<string>)
    ensures FindMutatorSheet(names).Some? ==> r == Some(names[FindMutatorSheet(names).value])
    ensures FindMutatorSheet(names).None? && names != [] && names[0] != "" ==> r == Some(names[0])
    ensures r.None? <==> FindMutatorSheet(names).None? && (names == [] || names[0] == "")
  {
    var found := FindMutatorSheet(names);
    if found.Some? then
      MutatorSheetNameNotEmpty(names[found.value]);
      if names[found.value] != "" then Some(names[found.value]) else None
    else if names != [] && names[0] != "" then Some(names[0])
    else None
  }

  /** `String(row[key] || "")`. */
  function CellText(row: Row, key: string): (r: string)
    ensures (key !in row || !Truthy(row[key])) ==> r == ""
    ensures key in row && row[key].Str? ==> r == row[key].s
  {
    ToText(Or(Get(row, key), Str("")))
  }

  /** `["Common", "Rare", "Epic", "Legendary"].includes(v) ? v : "Common"` on
      the raw cell value: only a string naming a rarity is kept. */
  function ValidRarity(v: Json): (r: Rarity)
    ensures v.Str? && v.s in {"Common", "Rare", "Epic", "Legendary"} ==> RarityName(r) == v.s
    ensures !(v.Str? && v.s in {"Common", "Rare", "Epic", "Legendary"}) ==> r == Common
  {
    if v.Str? then ParseRarity(v.s) else Common
  }

  /** The name given to a row without a usable `Mutator_name`. */
  function DefaultName(index: nat): string {
    "Imported Mutator " + Text.NatToString(index + 1)
  }

  /** The record the page importer builds from row `index`. */
  function PageImportRow(row: Row, now: nat, index: nat): (m: Mutator)
    ensures m.id == ImportedId(now, index)
    ensures "Mutator_name" in row && Truthy(row["Mutator_name"]) ==> m.name == ToText(row["Mutator_name"])
    ensures !("Mutator_name" in row && Truthy(row["Mutator_name"])) ==> m.name == DefaultName(index)
    ensures m.description == CellText(row, "Mutator") && m.strategy == CellText(row, "Strategy")
    ensures m.goodChampions == CellText(row, "Good_champions") && m.badChampions == CellText(row, "Bad_champions")
    ensures m.tag == Some(CellText(row, "Tag"))
    ensures var v := Or(Get(row, "Rarity"), Str("Common"));
      && (v.Str? && v.s in {"Common", "Rare", "Epic", "Legendary"} ==> RarityName(m.rarity) == v.s)
      && (!(v.Str? && v.s in {"Common", "Rare", "Epic", "Legendary"}) ==> m.rarity == Common)
  {
    Mutator(
      ImportedId(now, index),
      ToText(Or(Get(row, "Mutator_name"), Str(DefaultName(index)))),
      ValidRarity(Or(Get(row, "Rarity"), Str("Common"))),
      CellText(row, "Mutator"),
      CellText(row, "Good_champions"),
      CellText(row, "Bad_champions"),
      CellText(row, "Strategy"),
      Some(CellText(row, "Tag")))
  }

  /** The page importer reads the tag from the `Tag` column only: what a row
      holds under `Mutator_tags` makes no difference. */
  lemma PageImportIgnoresMutatorTags(row: Row, v: Json, now: nat, index: nat)
    ensures PageImportRow(row["Mutator_tags" := v], now, index) == PageImportRow(row, now, index)
  {
    assert Get(row["Mutator_tags" := v], "Tag") == Get(row, "Tag");
    assert Get(row["Mutator_tags" := v], "Mutator_name") == Get(row, "Mutator_name");
    assert Get(row["Mutator_tags" := v], "Rarity") == Get(row, "Rarity");
  }

  /** Two imported ids are equal only when they were given to the same row
      position, whatever the clock read for each. */
  lemma ImportedIdInjective(now1: nat, index1: nat, now2: nat, index2: nat)
    requires ImportedId(now1, index1) == ImportedId(now2, index2)
    ensures index1 == index2
  {
    var p1 := "imported-" + Text.NatToString(now1) + "-";
    var p2 := "imported-" + Text.NatToString(now2) + "-";
    assert ImportedId(now1, index1) == p1 + Text.NatToString(index1);
    assert ImportedId(now2, index2) == p2 + Text.NatToString(index2);
    Text.DigitSuffixDetermined(p1, Text.NatToString(index1), p2, Text.NatToString(index2));
    Text.NatToStringInjective(index1, index2);
  }

  /** An imported id never equals the id `handleAddMutator` gives a record. */
  lemma ImportedIdNotTimestamp(now: nat, index: nat, t: nat)
    ensures ImportedId(now, index) != Text.NatToString(t)
  {
    assert ImportedId(now, index)[0] == 'i';
  }

  datatype ImportError = NoSheet | NoRows

  /** `sheet_to_json(workbook.Sheets[name])`: the rows of the named sheet; a
      name the workbook holds no sheet for converts to no rows. */
  function SheetRows(wb: Workbook, name: string): (rows: seq<Row>)
    ensures name in wb.sheets ==> rows == wb.sheets[name]
    ensures name !in wb.sheets ==> rows == []
  {
    if name in wb.sheets then wb.sheets[name] else []
  }

  /** The rows of the chosen sheet, mapped one record per row. */
  function ImportRows(rows: seq<Row>, now: nat): (ms: seq<Mutator>)
    ensures |ms| == |rows|
    ensures forall i :: 0 <= i < |rows| ==> ms[i] == PageImportRow(rows[i], now, i)
  {
    seq(|rows|, i requires 0 <= i < |rows| => PageImportRow(rows[i], now, i))
  }

  /** What `handleExcelImport` hands to `onImport`, or the error it reports
      instead: no sheet to read, or a sheet without rows. */
  function ImportMutators(wb: Workbook, now: nat): (r: Result<seq<Mutator>, ImportError>)
    ensures r == Err(NoSheet) <==> ChooseSheet(wb.sheetNames).None?
    ensures r.Ok? ==>
      var rows := SheetRows(wb, ChooseSheet(wb.sheetNames).value);
      && rows != []
      && r.value == ImportRows(rows, now)
    ensures r == Err(NoRows) <==>
      ChooseSheet(wb.sheetNames).Some? && SheetRows(wb, ChooseSheet(wb.sheetNames).value) == []
  {
    match ChooseSheet(wb.sheetNames)
    case None => Err(NoSheet)
    case Some(name) =>
      var ms := ImportRows(SheetRows(wb, name), now);
      if |ms| > 0 then Ok(ms) else Err(NoRows)
  }

  /** The records of one import carry pairwise distinct ids, and none of them
      can collide with an id `handleAddMutator` hands out. */
  lemma ImportedIdsDistinct(rows: seq<Row>, now: nat)
    ensures DistinctIds(ImportRows(rows, now))
    ensures forall i, t: nat :: 0 <= i < |rows| ==> ImportRows(rows, now)[i].id != Text.NatToString(t)
  {
    var ms := ImportRows(rows, now);
    forall i, j | 0 <= i < j < |ms| ensures ms[i].id != ms[j].id {
      if ms[i].id == ms[j].id {
        ImportedIdInjective(now, i, now, j);
      }
    }
    forall i, t: nat | 0 <= i < |rows| ensures ms[i].id != Text.NatToString(t) {
      ImportedIdNotTimestamp(now, i, t);
    }
  }
}
