/** The mutators page (src/pages/MutatorsDatabase.tsx): the case-insensitive
    search over the mutator list, and completing an edit. */
module MutatorsDatabase {
  import opened Wrappers
  import Text
  import Seqs
  import Storage
  import opened Mutators
  import ExcelImport

  /** The search predicate of `filteredMutators`: the lower-cased term occurs
      in the lower-cased name, description or tag; an absent or empty tag is
      falsy and is skipped. */
  predicate MatchesSearch(m: Mutator, term: string) {
    var t := Text.Lower(term);
    Text.Contains(Text.Lower(m.name), t)
    || Text.Contains(Text.Lower(m.description), t)
    || (m.tag.Some? && m.tag.value != "" && Text.Contains(Text.Lower(m.tag.value), t))
  }

  /** The search predicate for a fixed term, as the test `filter` applies. */
  function Matching(term: string): Mutator -> bool {
    (m: Mutator) => MatchesSearch(m, term)
  }

  /** `mutators.filter(...)`: the matching mutators, each occurrence kept, in
      list order. */
  function FilterMutators(ms: seq<Mutator>, term: string): (r: seq<Mutator>)
    ensures Seqs.IsSubsequence(r, ms)
    ensures forall i :: 0 <= i < |r| ==> r[i] in ms && MatchesSearch(r[i], term)
    ensures forall i :: 0 <= i < |ms| && MatchesSearch(ms[i], term) ==> ms[i] in r
    ensures |r| == Seqs.Count(ms, Matching(term))
  {
    Seqs.FilterLength(ms, Matching(term));
    Seqs.Filter(ms, Matching(term))
  }

  /** Lower-casing both sides keeps every occurrence: the search is a
      case-insensitive substring test. */
  lemma LowerKeepsOccurrence(hay: string, needle: string, i: int)
    requires Text.OccursAt(hay, needle, i)
    ensures Text.OccursAt(Text.Lower(hay), Text.Lower(needle), i)
  {
    var lh, ln := Text.Lower(hay), Text.Lower(needle);
    forall k | 0 <= k < |needle| ensures lh[i + k] == ln[k] {
      assert hay[i + k] == hay[i..i + |needle|][k];
    }
    assert lh[i..i + |needle|] == ln;
  }

  /** A mutator whose name holds the term, in any letter case, matches. */
  lemma NameMatch(m: Mutator, term: string)
    requires Text.Contains(m.name, term)
    ensures MatchesSearch(m, term)
  {
    var i :| Text.OccursAt(m.name, term, i);
    LowerKeepsOccurrence(m.name, term, i);
  }

  /** The empty search term matches every mutator. */
  lemma EmptyTermMatches(m: Mutator)
    ensures MatchesSearch(m, "")
  {
    assert Text.Lower("") == "";
    Text.ContainsEmpty(Text.Lower(m.name));
  }

  /** With the empty search term the whole list is shown, in order. */
  lemma EmptyTermShowsAll(ms: seq<Mutator>)
    ensures FilterMutators(ms, "") == ms
  {
    forall i | 0 <= i < |ms| ensures MatchesSearch(ms[i], "") {
      EmptyTermMatches(ms[i]);
    }
    Seqs.FilterAll(ms, Matching(""));
  }

  /** A mutator without a tag, or with an empty one, matches exactly when its
      name or description does. */
  lemma UntaggedMatch(m: Mutator, term: string)
    requires m.tag.None? || m.tag == Some("")
    ensures MatchesSearch(m, term) <==>
      MatchesSearch(m.(description := ""), term) || MatchesSearch(m.(name := ""), term)
  {
    var t := Text.Lower(term);
    assert Text.Lower("") == "";
    if t != "" {
      assert !Text.Contains("", t);
    }
  }

  /** The page's own state: the mutator being edited, over the shared registry. */
  class MutatorsPage {
    var editing: Option<Mutator>
    const registry: MutatorRegistry

    constructor (registry: MutatorRegistry)
      ensures this.registry == registry && editing.None?
    {
      this.registry := registry;
      editing := None;
    }

    /** `handleEditClick`: open the edit dialog on `m`. */
    method EditClick(m: Mutator)
      modifies this
      ensures editing == Some(m)
    {
      editing := Some(m);
    }

    /** `handleEditComplete`: hand the updated record to the registry's edit,
        then clear the selection. */
    method EditComplete(updated: Mutator)
      modifies this, registry, registry.store
      ensures editing.None?
      ensures registry.mutators == ReplaceById(old(registry.mutators), updated)
      ensures registry.store.entries == Persisted(old(registry.store.entries), registry.mutators)
    {
      registry.EditMutator(updated);
      editing := None;
    }

    /** The page wires the workbook import to the registry's bulk append: a
        workbook that yields mutators appends them; one that fails changes
        nothing. */
    method ImportWorkbook(wb: ExcelImport.Workbook, now: nat)
      modifies registry, registry.store
      ensures ExcelImport.ImportMutators(wb, now).Ok? ==>
        registry.mutators == old(registry.mutators) + ExcelImport.ImportMutators(wb, now).value
        && registry.store.entries == Persisted(old(registry.store.entries), registry.mutators)
      ensures ExcelImport.ImportMutators(wb, now).Err? ==>
        registry.mutators == old(registry.mutators)
        && registry.store.entries == old(registry.store.entries)
    {
      var imported := ExcelImport.ImportMutators(wb, now);
      if imported.Ok? {
        registry.AddImportedMutators(imported.value);
      }
    }
  }
}
