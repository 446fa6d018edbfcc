/** The mutator registry (src/hooks/useMutators.tsx): an ordered list of
    mutator records that every handler replaces, the tag-inference rule applied
    on add, and the effect that persists the list and its spreadsheet-shaped
    projection after every change. */
module Mutators {
  import opened Wrappers
  import opened Js
  import Text
  import Seqs
  import opened Storage

  // ---------------------------------------------------------------------
  // Records
  // ---------------------------------------------------------------------

  datatype Rarity = Common | Rare | Epic | Legendary

  function RarityName(r: Rarity): string {
    match r
    case Common => "Common"
    case Rare => "Rare"
    case Epic => "Epic"
    case Legendary => "Legendary"
  }

  /** `["Common", "Rare", "Epic", "Legendary"].includes(s) ? s : "Common"`. */
  function ParseRarity(s: string): (r: Rarity)
    ensures RarityName(r) == s || (r == Common && s !in {"Rare", "Epic", "Legendary"})
  {
    if s == "Rare" then Rare
    else if s == "Epic" then Epic
    else if s == "Legendary" then Legendary
    else Common
  }

  /** Every rarity name reads back as that rarity. */
  lemma ParseRarityName(r: Rarity)
    ensures ParseRarity(RarityName(r)) == r
  {
  }

  datatype Mutator = Mutator(
    id: string,
    name: string,
    rarity: Rarity,
    description: string,
    goodChampions: string,
    badChampions: string,
    strategy: string,
    tag: Option<string>)

  /** The record a caller hands to `handleAddMutator`: a mutator without its id. */
  datatype MutatorDraft = MutatorDraft(
    name: string,
    rarity: Rarity,
    description: string,
    goodChampions: string,
    badChampions: string,
    strategy: string,
    tag: Option<string>)

  /** `mutator.tag || ""`. */
  function TagText(tag: Option<string>): string {
    if tag.Some? then tag.value else ""
  }

  /** The id of the `index`-th record of an import run at time `now`:
      `imported-<now>-<index>`. */
  function ImportedId(now: nat, index: nat): string {
    "imported-" + Text.NatToString(now) + "-" + Text.NatToString(index)
  }

  predicate DistinctIds(ms: seq<Mutator>) {
    forall i, j :: 0 <= i < j < |ms| ==> ms[i].id != ms[j].id
  }

  // ---------------------------------------------------------------------
  // Tag inference (handleAddMutator)
  // ---------------------------------------------------------------------

  datatype Side = Good | Bad

  function ChampionList(m: Mutator, side: Side): string {
    if side == Good then m.goodChampions else m.badChampions
  }

  /** What one mutator adds to the set: nothing for an empty list, otherwise
      every piece of `list.split(/[,;]/)`, trimmed, empty pieces included. */
  function Pieces(list: string): seq<string> {
    if list == "" then [] else Text.TrimAll(Text.Split(list))
  }

  /** The pieces one mutator contributes to the set of the given side. */
  function PiecesOf(side: Side): Mutator -> seq<string> {
    (m: Mutator) => Pieces(ChampionList(m, side))
  }

  /** All pieces of the chosen list of every mutator in `ms`, in `forEach` order. */
  function AllPieces(ms: seq<Mutator>, side: Side): seq<string> {
    Seqs.FlatMap(ms, PiecesOf(side))
  }

  /** The list inference builds: `Array.from(set)` of the collected pieces. */
  function InferredPieces(tagged: seq<Mutator>, side: Side): seq<string> {
    Seqs.Dedup(AllPieces(tagged, side))
  }

  /** The mutators an added record with tag `tag` is grouped with:
      `mutators.filter(m => m.tag === tag)`. */
  function Tagged(ms: seq<Mutator>, tag: string): (r: seq<Mutator>)
    ensures forall i :: 0 <= i < |r| ==> r[i] in ms && r[i].tag == Some(tag)
    ensures forall i :: 0 <= i < |ms| && ms[i].tag == Some(tag) ==> ms[i] in r
    ensures Seqs.IsSubsequence(r, ms)
  {
    Seqs.Filter(ms, (m: Mutator) => m.tag == Some(tag))
  }

  /** Inference applies when the draft's tag is a non-empty string that at least
      one existing mutator carries exactly. */
  predicate InfersFrom(existing: seq<Mutator>, draft: MutatorDraft) {
    draft.tag.Some? && draft.tag.value != "" && Tagged(existing, draft.tag.value) != []
  }

  /** The record `handleAddMutator` appends: the draft, with the timestamp as
      id, and with both champion lists replaced by the inferred ones when the
      tag groups it with existing mutators. */
  function NewMutator(existing: seq<Mutator>, draft: MutatorDraft, now: nat): (r: Mutator)
    ensures r.id == Text.NatToString(now)
    ensures r.name == draft.name && r.rarity == draft.rarity && r.description == draft.description
    ensures r.strategy == draft.strategy && r.tag == draft.tag
    ensures !InfersFrom(existing, draft) ==>
      r.goodChampions == draft.goodChampions && r.badChampions == draft.badChampions
    ensures InfersFrom(existing, draft) ==>
      var tagged := Tagged(existing, draft.tag.value);
      && r.goodChampions == Text.Join(InferredPieces(tagged, Good), ", ")
      && r.badChampions == Text.Join(InferredPieces(tagged, Bad), ", ")
  {
    var plain := Mutator(Text.NatToString(now), draft.name, draft.rarity, draft.description,
                         draft.goodChampions, draft.badChampions, draft.strategy, draft.tag);
    if InfersFrom(existing, draft) then
      var tagged := Tagged(existing, draft.tag.value);
      plain.(goodChampions := Text.Join(InferredPieces(tagged, Good), ", "),
             badChampions := Text.Join(InferredPieces(tagged, Bad), ", "))
    else plain
  }

  /** The inferred list holds each piece once, every piece of every mutator in
      the group, nothing else, in order of first appearance. */
  lemma InferredPiecesSpec(tagged: seq<Mutator>, side: Side)
    ensures Seqs.NoDuplicates(InferredPieces(tagged, side))
    ensures forall x :: x in InferredPieces(tagged, side) <==>
      exists k :: 0 <= k < |tagged| && x in Pieces(ChampionList(tagged[k], side))
    ensures forall i, j :: 0 <= i < j < |InferredPieces(tagged, side)| ==>
      var all := AllPieces(tagged, side);
      Seqs.FirstIndex(all, InferredPieces(tagged, side)[i]) < Seqs.FirstIndex(all, InferredPieces(tagged, side)[j])
  {
    var all := AllPieces(tagged, side);
    Seqs.DedupSpec(all);
    forall x ensures x in InferredPieces(tagged, side) <==>
      exists k :: 0 <= k < |tagged| && x in Pieces(ChampionList(tagged[k], side))
    {
      Seqs.FlatMapMembers(tagged, PiecesOf(side), x);
    }
    Seqs.DedupFirstAppearanceOrder(all);
  }

  /** Empty pieces are kept: two adjacent separators contribute an empty name. */
  lemma EmptyPiecesKept()
    ensures Pieces("A,,B") == ["A", "", "B"]
  {
    Text.SplitKeepsEmptyPieces();
    PiecesOfTrimmedParts("A,,B", ["A", "", "B"]);
  }

  /** When every part a non-empty list splits into is already trimmed, its
      pieces are those parts. */
  lemma PiecesOfTrimmedParts(list: string, parts: seq<string>)
    requires list != "" && Text.Split(list) == parts
    requires forall i :: 0 <= i < |parts| ==> Text.IsTrimmed(parts[i])
    ensures Pieces(list) == parts
  {
    forall k | 0 <= k < |parts| ensures Text.TrimAll(parts)[k] == parts[k] {
      Text.TrimAllAt(parts, k);
      Text.TrimOfTrimmed(parts[k]);
    }
  }

  /** An added record never reuses an id when the clock has moved on since the
      last add: the registry's ids stay distinct. */
  lemma AddKeepsIdsDistinct(existing: seq<Mutator>, draft: MutatorDraft, now: nat)
    requires DistinctIds(existing)
    requires forall i :: 0 <= i < |existing| ==> existing[i].id != Text.NatToString(now)
    ensures DistinctIds(existing + [NewMutator(existing, draft, now)])
  {
  }

  // ---------------------------------------------------------------------
  // Edit, delete, tag edit
  // ---------------------------------------------------------------------

  /** `prev.map(m => m.id === updated.id ? updated : m)`. */
  function ReplaceById(ms: seq<Mutator>, updated: Mutator): (r: seq<Mutator>)
    ensures |r| == |ms|
    ensures forall i :: 0 <= i < |ms| ==> r[i] == if ms[i].id == updated.id then updated else ms[i]
  {
    seq(|ms|, i requires 0 <= i < |ms| => if ms[i].id == updated.id then updated else ms[i])
  }

  /** The test `m => m.id !== id`. */
  function OtherId(id: string): Mutator -> bool {
    (m: Mutator) => m.id != id
  }

  /** `prev.filter(m => m.id !== id)`: every record with another id, each
      occurrence kept, in order. */
  function RemoveById(ms: seq<Mutator>, id: string): (r: seq<Mutator>)
    ensures forall i :: 0 <= i < |r| ==> r[i].id != id && r[i] in ms
    ensures forall i :: 0 <= i < |ms| && ms[i].id != id ==> ms[i] in r
    ensures Seqs.IsSubsequence(r, ms)
    ensures |r| == Seqs.Count(ms, OtherId(id))
  {
    Seqs.FilterLength(ms, OtherId(id));
    Seqs.Filter(ms, OtherId(id))
  }

  /** Deleting an id no record carries changes nothing. */
  lemma RemoveAbsentId(ms: seq<Mutator>, id: string)
    requires forall i :: 0 <= i < |ms| ==> ms[i].id != id
    ensures RemoveById(ms, id) == ms
  {
    Seqs.FilterAll(ms, OtherId(id));
  }

  /** Editing with an id no record carries changes nothing. */
  lemma ReplaceAbsentId(ms: seq<Mutator>, updated: Mutator)
    requires forall i :: 0 <= i < |ms| ==> ms[i].id != updated.id
    ensures ReplaceById(ms, updated) == ms
  {
  }

  /** `prev.map(m => m.id === id ? { ...m, tag: newTag.trim() } : m)`. */
  function SetTagById(ms: seq<Mutator>, id: string, newTag: string): (r: seq<Mutator>)
    ensures |r| == |ms|
    ensures forall i :: 0 <= i < |ms| && ms[i].id != id ==> r[i] == ms[i]
    ensures forall i :: 0 <= i < |ms| && ms[i].id == id ==>
      r[i] == ms[i].(tag := Some(Text.Trim(newTag)))
  {
    seq(|ms|, i requires 0 <= i < |ms| =>
      if ms[i].id == id then ms[i].(tag := Some(Text.Trim(newTag))) else ms[i])
  }

  // ---------------------------------------------------------------------
  // Persistence
  // ---------------------------------------------------------------------

  /** `JSON.stringify` of one record: an absent tag is left out. */
  function EncodeMutator(m: Mutator): Json {
    var fields := map[
      "id" := Str(m.id), "name" := Str(m.name), "rarity" := Str(RarityName(m.rarity)),
      "description" := Str(m.description), "goodChampions" := Str(m.goodChampions),
      "badChampions" := Str(m.badChampions), "strategy" := Str(m.strategy)];
    Obj(if m.tag.Some? then fields["tag" := Str(m.tag.value)] else fields)
  }

  function EncodeMutators(ms: seq<Mutator>): Json {
    Arr(seq(|ms|, i requires 0 <= i < |ms| => EncodeMutator(ms[i])))
  }

  /** Reading a stored record back; `None` when it is not shaped like one. */
  function DecodeMutator(v: Json): Option<Mutator> {
    if !v.Obj? then None
    else
      var f := v.fields;
      var id, name, rarity := StrField(f, "id"), StrField(f, "name"), StrField(f, "rarity");
      var desc, good, bad := StrField(f, "description"), StrField(f, "goodChampions"), StrField(f, "badChampions");
      var strategy := StrField(f, "strategy");
      if id.None? || name.None? || rarity.None? || desc.None? || good.None? || bad.None? || strategy.None? then None
      else if rarity.value !in {"Common", "Rare", "Epic", "Legendary"} then None
      else if "tag" in f && !f["tag"].Str? then None
      else
        Some(Mutator(id.value, name.value, ParseRarity(rarity.value), desc.value, good.value,
                     bad.value, strategy.value, StrField(f, "tag")))
  }

  function DecodeMutators(items: seq<Json>): Option<seq<Mutator>> {
    if items == [] then Some([])
    else
      var head, rest := DecodeMutator(items[0]), DecodeMutators(items[1..]);
      if head.Some? && rest.Some? then Some([head.value] + rest.value) else None
  }

  /** A stored record reads back as the record that was stored. */
  lemma DecodeEncodeMutator(m: Mutator)
    ensures DecodeMutator(EncodeMutator(m)) == Some(m)
  {
    ParseRarityName(m.rarity);
  }

  /** The stored list reads back as the list that was stored. */
  lemma {:induction false} DecodeEncodeMutators(ms: seq<Mutator>)
    ensures DecodeMutators(EncodeMutators(ms).items) == Some(ms)
  {
    if ms != [] {
      var items := EncodeMutators(ms).items;
      DecodeEncodeMutator(ms[0]);
      DecodeEncodeMutators(ms[1..]);
      assert items[0] == EncodeMutator(ms[0]);
      assert items[1..] == EncodeMutators(ms[1..]).items;
      assert ms == [ms[0]] + ms[1..];
    }
  }

  /** The columns a stored record's fields are exported under. */
  function MutatorRow(name: Json, rarity: Json, description: Json, good: Json, bad: Json,
                      strategy: Json, tag: Json): (r: Row)
    ensures "Mutator_name" in r && r["Mutator_name"] == name && "Mutator_tags" in r && r["Mutator_tags"] == tag
  {
    map["Mutator_name" := name, "Rarity" := rarity, "Mutator" := description,
        "Good_champions" := good, "Bad_champions" := bad, "Strategy" := strategy,
        "Mutator_tags" := tag]
  }

  /** A record's row in the spreadsheet projection: each field under its
      column name, an absent tag written as `""`. */
  function ExportRow(m: Mutator): (r: Row)
    ensures "Mutator_name" in r && r["Mutator_name"] == Str(m.name)
    ensures "Mutator_tags" in r && r["Mutator_tags"] == Str(TagText(m.tag))
  {
    MutatorRow(Str(m.name), Str(RarityName(m.rarity)), Str(m.description), Str(m.goodChampions),
               Str(m.badChampions), Str(m.strategy), Str(TagText(m.tag)))
  }

  /** The projection has exactly the seven sheet columns, each holding its
      field as text. */
  lemma ExportRowColumns(m: Mutator)
    ensures ExportRow(m).Keys ==
      {"Mutator_name", "Rarity", "Mutator", "Good_champions", "Bad_champions", "Strategy", "Mutator_tags"}
    ensures ExportRow(m)["Rarity"] == Str(RarityName(m.rarity))
    ensures ExportRow(m)["Mutator"] == Str(m.description)
    ensures ExportRow(m)["Good_champions"] == Str(m.goodChampions)
    ensures ExportRow(m)["Bad_champions"] == Str(m.badChampions)
    ensures ExportRow(m)["Strategy"] == Str(m.strategy)
  {
  }

  function ExportRows(ms: seq<Mutator>): (r: seq<Json>)
    ensures |r| == |ms|
    ensures forall i :: 0 <= i < |ms| ==> r[i] == Obj(ExportRow(ms[i]))
  {
    seq(|ms|, i requires 0 <= i < |ms| => Obj(ExportRow(ms[i])))
  }

  /** The store after the persistence effect: the list under `lorMutators`,
      and, only when `lorCompanionData` holds an object, its `Mutators` sheet
      replaced by the projection. */
  function Persisted(entries: map<string, Entry>, ms: seq<Mutator>): (r: map<string, Entry>)
    ensures r.Keys == entries.Keys + {MutatorsKey}
    ensures r[MutatorsKey] == Parsed(EncodeMutators(ms))
    ensures forall k :: k in entries && k != MutatorsKey && k != CompanionKey ==> r[k] == entries[k]
  {
    var saved := entries[MutatorsKey := Parsed(EncodeMutators(ms))];
    if CompanionKey in entries && entries[CompanionKey].Parsed? && entries[CompanionKey].value.Obj? then
      var data := entries[CompanionKey].value.fields;
      saved[CompanionKey := Parsed(Obj(data["Mutators" := Arr(ExportRows(ms))]))]
    else saved
  }

  /** The companion snapshot's `Mutators` sheet is the projection of the list,
      one row per record in order, when the snapshot existed as an object;
      otherwise the snapshot is left as it was. */
  lemma PersistedProjection(entries: map<string, Entry>, ms: seq<Mutator>)
    ensures CompanionKey !in entries ==> CompanionKey !in Persisted(entries, ms)
    ensures CompanionKey in entries && !(entries[CompanionKey].Parsed? && entries[CompanionKey].value.Obj?) ==>
      Persisted(entries, ms)[CompanionKey] == entries[CompanionKey]
    ensures CompanionKey in entries && entries[CompanionKey].Parsed? && entries[CompanionKey].value.Obj? ==>
      var after := Persisted(entries, ms)[CompanionKey];
      && after.Parsed? && after.value.Obj?
      && after.value.fields.Keys == entries[CompanionKey].value.fields.Keys + {"Mutators"}
      && after.value.fields["Mutators"] == Arr(ExportRows(ms))
      && forall k :: k in entries[CompanionKey].value.fields && k != "Mutators" ==>
           after.value.fields[k] == entries[CompanionKey].value.fields[k]
  {
  }

  /** The list the load effect installs: the stored list when it parses and is
      shaped like mutator records, otherwise the initial empty list. */
  function LoadMutators(entries: map<string, Entry>): seq<Mutator> {
    if MutatorsKey in entries && entries[MutatorsKey].Parsed? && entries[MutatorsKey].value.Arr? then
      var decoded := DecodeMutators(entries[MutatorsKey].value.items);
      if decoded.Some? then decoded.value else []
    else []
  }

  /** What was persisted is what the next load installs. */
  lemma LoadAfterPersist(entries: map<string, Entry>, ms: seq<Mutator>)
    ensures LoadMutators(Persisted(entries, ms)) == ms
  {
    DecodeEncodeMutators(ms);
  }

  // ---------------------------------------------------------------------
  // The registry
  // ---------------------------------------------------------------------

  class MutatorRegistry {
    var mutators: seq<Mutator>
    const store: Store

    /** Mounting the hook: the load effect installs the stored list, then the
        persistence effect writes it back. */
    constructor (store: Store)
      modifies store
      ensures this.store == store
      ensures mutators == LoadMutators(old(store.entries))
      ensures store.entries == Persisted(old(store.entries), mutators)
    {
      this.store := store;
      mutators := LoadMutators(store.entries);
      new;
      Persist();
    }

    /** The persistence effect. */
    method Persist()
      modifies store
      ensures store.entries == Persisted(old(store.entries), mutators)
    {
      store.Save(MutatorsKey, EncodeMutators(mutators));
      if CompanionKey in store.entries {
        match store.entries[CompanionKey]
        case Parsed(Obj(data)) =>
          store.Save(CompanionKey, Obj(data["Mutators" := Arr(ExportRows(mutators))]));
        case _ =>
      }
    }

    /** The `forEach` over the grouped mutators that adds every trimmed piece of
        their good and bad lists to two insertion-ordered sets. */
    static method CollectChampions(tagged: seq<Mutator>) returns (good: seq<string>, bad: seq<string>)
      ensures good == InferredPieces(tagged, Good)
      ensures bad == InferredPieces(tagged, Bad)
    {
      good, bad := [], [];
      var i := 0;
      while i < |tagged|
        invariant 0 <= i <= |tagged|
        invariant good == Seqs.Dedup(AllPieces(tagged[..i], Good))
        invariant bad == Seqs.Dedup(AllPieces(tagged[..i], Bad))
      {
        CollectStep(tagged, i, Good);
        CollectStep(tagged, i, Bad);
        good := AddPieces(good, tagged[i].goodChampions);
        bad := AddPieces(bad, tagged[i].badChampions);
        i := i + 1;
      }
      assert tagged[..|tagged|] == tagged;
    }

    /** Visiting one more mutator adds its pieces to the set built so far. */
    static lemma CollectStep(tagged: seq<Mutator>, i: nat, side: Side)
      requires i < |tagged|
      ensures Seqs.Dedup(AllPieces(tagged[..i + 1], side))
        == Seqs.AddAll(Seqs.Dedup(AllPieces(tagged[..i], side)), Pieces(ChampionList(tagged[i], side)))
    {
      Seqs.FlatMapSnoc(tagged, PiecesOf(side), i);
      Seqs.DedupAppend(AllPieces(tagged[..i], side), Pieces(ChampionList(tagged[i], side)));
    }

    /** `if (list) list.split(/[,;]/).forEach(c => set.add(c.trim()))`. */
    static method AddPieces(collected: seq<string>, list: string) returns (r: seq<string>)
      ensures r == Seqs.AddAll(collected, Pieces(list))
    {
      if list == "" {
        return collected;
      }
      r := AddTrimmed(collected, Text.Split(list));
    }

    /** `parts.forEach(c => set.add(c.trim()))`. */
    static method AddTrimmed(collected: seq<string>, parts: seq<string>) returns (r: seq<string>)
      ensures r == Seqs.AddAll(collected, Text.TrimAll(parts))
    {
      r := collected;
      for j := 0 to |parts|
        invariant r == Seqs.AddAll(collected, Text.TrimAll(parts[..j]))
      {
        var piece := Text.Trim(parts[j]);
        Text.TrimAllSnoc(parts, j);
        Seqs.AddAllSnoc(collected, Text.TrimAll(parts[..j]), piece);
        r := Seqs.SetAdd(r, piece);
      }
      assert parts[..|parts|] == parts;
    }

    /** `handleAddMutator`: exactly one record appended at the end. */
    method AddMutator(draft: MutatorDraft, now: nat)
      modifies this, store
      ensures mutators == old(mutators) + [NewMutator(old(mutators), draft, now)]
      ensures store.entries == Persisted(old(store.entries), mutators)
    {
      var added := Mutator(Text.NatToString(now), draft.name, draft.rarity, draft.description,
                           draft.goodChampions, draft.badChampions, draft.strategy, draft.tag);
      if draft.tag.Some? && draft.tag.value != "" {
        var tagged := Tagged(mutators, draft.tag.value);
        if |tagged| > 0 {
          var good, bad := CollectChampions(tagged);
          added := added.(goodChampions := Text.Join(good, ", "), badChampions := Text.Join(bad, ", "));
        }
      }
      mutators := mutators + [added];
      Persist();
    }

    /** `handleEditMutator`. */
    method EditMutator(updated: Mutator)
      modifies this, store
      ensures mutators == ReplaceById(old(mutators), updated)
      ensures store.entries == Persisted(old(store.entries), mutators)
    {
      mutators := ReplaceById(mutators, updated);
      Persist();
    }

    /** `handleDeleteMutator`. */
    method DeleteMutator(id: string)
      modifies this, store
      ensures mutators == RemoveById(old(mutators), id)
      ensures store.entries == Persisted(old(store.entries), mutators)
    {
      mutators := RemoveById(mutators, id);
      Persist();
    }

    /** `addImportedMutators`: the batch appended as given, no inference. */
    method AddImportedMutators(batch: seq<Mutator>)
      modifies this, store
      ensures mutators == old(mutators) + batch
      ensures store.entries == Persisted(old(store.entries), mutators)
    {
      mutators := mutators + batch;
      Persist();
    }

    /** `handleTagEdit`. */
    method TagEdit(id: string, newTag: string)
      modifies this, store
      ensures mutators == SetTagById(old(mutators), id, newTag)
      ensures store.entries == Persisted(old(store.entries), mutators)
    {
      mutators := SetTagById(mutators, id, newTag);
      Persist();
    }
  }
}
