/** The add and edit dialogs of the mutators page
    (src/components/mutators/AddMutatorDialog.tsx and EditMutatorDialog.tsx):
    both trim what was typed and refuse a record whose name or description
    is blank. */
module MutatorDialogs {
  import opened Wrappers
  import Text
  import opened Mutators

  /** The submit guard: `!name.trim() || !description.trim()` rejects. */
  predicate Accepts(name: string, description: string) {
    Text.Trim(name) != "" && Text.Trim(description) != ""
  }

  /** The record the add dialog hands to `onAdd`, or `None` when the guard
      rejects the form. The record has no id; the tag is always present. */
  function AddDraft(name: string, rarity: Rarity, description: string, good: string,
                    bad: string, strategy: string, tag: string): (r: Option<MutatorDraft>)
    ensures r.Some? <==> Accepts(name, description)
    ensures r.Some? ==>
      r.value.name != "" && Text.IsTrimmed(r.value.name) && |r.value.name| <= |name|
      && r.value.description != "" && Text.IsTrimmed(r.value.description)
      && Text.IsTrimmed(r.value.goodChampions) && Text.IsTrimmed(r.value.badChampions)
      && Text.IsTrimmed(r.value.strategy)
      && r.value.rarity == rarity
      && r.value.tag.Some? && Text.IsTrimmed(r.value.tag.value)
    ensures r.Some? ==>
      r.value.name == Text.Trim(name) && r.value.description == Text.Trim(description)
      && r.value.goodChampions == Text.Trim(good) && r.value.badChampions == Text.Trim(bad)
      && r.value.strategy == Text.Trim(strategy) && r.value.tag == Some(Text.Trim(tag))
  {
    if !Accepts(name, description) then None
    else Some(MutatorDraft(Text.Trim(name), rarity, Text.Trim(description), Text.Trim(good),
                           Text.Trim(bad), Text.Trim(strategy), Some(Text.Trim(tag))))
  }

  /** Submitting the fields of an accepted draft again gives the same draft:
      the dialog's trimming is idempotent. */
  lemma AddDraftStable(name: string, rarity: Rarity, description: string, good: string,
                       bad: string, strategy: string, tag: string)
    requires Accepts(name, description)
    ensures var d := AddDraft(name, rarity, description, good, bad, strategy, tag).value;
      AddDraft(d.name, d.rarity, d.description, d.goodChampions, d.badChampions,
               d.strategy, d.tag.value) == Some(d)
  {
    Text.TrimIdempotent(name);
    Text.TrimIdempotent(description);
    Text.TrimIdempotent(good);
    Text.TrimIdempotent(bad);
    Text.TrimIdempotent(strategy);
    Text.TrimIdempotent(tag);
  }

  /** The record the edit dialog hands to `onEdit`: the original record with
      the five text fields trimmed and the selected rarity; id and tag come
      through the spread unchanged. */
  function Edited(m: Mutator, name: string, rarity: Rarity, description: string,
                  good: string, bad: string, strategy: string): (r: Option<Mutator>)
    ensures r.Some? <==> Accepts(name, description)
    ensures r.Some? ==>
      r.value.id == m.id && r.value.tag == m.tag && r.value.rarity == rarity
      && r.value.name != "" && Text.IsTrimmed(r.value.name)
      && r.value.description != "" && Text.IsTrimmed(r.value.description)
      && Text.IsTrimmed(r.value.goodChampions) && Text.IsTrimmed(r.value.badChampions)
      && Text.IsTrimmed(r.value.strategy)
    ensures r.Some? ==>
      r.value.name == Text.Trim(name) && r.value.description == Text.Trim(description)
      && r.value.goodChampions == Text.Trim(good) && r.value.badChampions == Text.Trim(bad)
      && r.value.strategy == Text.Trim(strategy)
  {
    if !Accepts(name, description) then None
    else Some(m.(name := Text.Trim(name), rarity := rarity, description := Text.Trim(description),
                 goodChampions := Text.Trim(good), badChampions := Text.Trim(bad),
                 strategy := Text.Trim(strategy)))
  }

  /** A record whose text fields are already trimmed, with a non-blank name
      and description, comes back unchanged when the loaded form is submitted
      untouched. */
  lemma EditUntouched(m: Mutator)
    requires m.name != "" && m.description != ""
    requires Text.IsTrimmed(m.name) && Text.IsTrimmed(m.description)
    requires Text.IsTrimmed(m.goodChampions) && Text.IsTrimmed(m.badChampions)
    requires Text.IsTrimmed(m.strategy)
    ensures Edited(m, m.name, m.rarity, m.description, m.goodChampions, m.badChampions,
                   m.strategy) == Some(m)
  {
    Text.TrimOfTrimmed(m.name);
    Text.TrimOfTrimmed(m.description);
    Text.TrimOfTrimmed(m.goodChampions);
    Text.TrimOfTrimmed(m.badChampions);
    Text.TrimOfTrimmed(m.strategy);
  }

  /** The add dialog's form state. */
  class AddMutatorForm {
    var name: string
    var rarity: Rarity
    var description: string
    var goodChampions: string
    var badChampions: string
    var strategy: string
    var tag: string
    var open: bool

    /** Every text field empty and the rarity back at its default. */
    predicate Blank()
      reads this
    {
      name == "" && rarity == Common && description == "" && goodChampions == ""
      && badChampions == "" && strategy == "" && tag == ""
    }

    constructor (open: bool)
      ensures Blank() && this.open == open
    {
      name, rarity, description := "", Common, "";
      goodChampions, badChampions, strategy, tag := "", "", "", "";
      this.open := open;
    }

    /** `handleSubmit`: a rejected form stays as it is; an accepted one is
        handed on, then every field is reset and the dialog closes. */
    method Submit() returns (r: Option<MutatorDraft>)
      modifies this
      ensures r == AddDraft(old(name), old(rarity), old(description), old(goodChampions),
                            old(badChampions), old(strategy), old(tag))
      ensures r.None? ==> unchanged(this)
      ensures r.Some? ==> Blank() && !open
    {
      r := AddDraft(name, rarity, description, goodChampions, badChampions, strategy, tag);
      if r.None? {
        return;
      }
      Reset();
    }

    /** The reset after a successful submit: seven field writes, then close. */
    method Reset()
      modifies this
      ensures Blank() && !open
    {
      name := "";
      rarity := Common;
      description := "";
      goodChampions := "";
      badChampions := "";
      strategy := "";
      tag := "";
      open := false;
    }
  }

  /** The edit dialog's form state. */
  class EditMutatorForm {
    var name: string
    var rarity: Rarity
    var description: string
    var goodChampions: string
    var badChampions: string
    var strategy: string

    constructor ()
      ensures name == "" && rarity == Common && description == ""
      ensures goodChampions == "" && badChampions == "" && strategy == ""
    {
      name, rarity, description := "", Common, "";
      goodChampions, badChampions, strategy := "", "", "";
    }

    /** The effect that runs when the `mutator` prop changes: copy its six
        editable fields into the form. */
    method Load(m: Mutator)
      modifies this
      ensures name == m.name && rarity == m.rarity && description == m.description
      ensures goodChampions == m.goodChampions && badChampions == m.badChampions
      ensures strategy == m.strategy
    {
      name := m.name;
      rarity := m.rarity;
      description := m.description;
      goodChampions := m.goodChampions;
      badChampions := m.badChampions;
      strategy := m.strategy;
    }

    /** `handleSubmit`: the record for `onEdit`, or `None` when the guard
        rejects; the form itself is left as it is. */
    method Submit(m: Mutator) returns (r: Option<Mutator>)
      ensures r == Edited(m, name, rarity, description, goodChampions, badChampions, strategy)
    {
      if !Accepts(name, description) {
        return None;
      }
      r := Some(m.(name := Text.Trim(name), rarity := rarity,
                   description := Text.Trim(description),
                   goodChampions := Text.Trim(goodChampions),
                   badChampions := Text.Trim(badChampions),
                   strategy := Text.Trim(strategy)));
    }
  }
}

/** The tag dialog (src/components/mutators/TagEditDialog.tsx): edits the
    champion lists of one tag; no field is required. */
module TagEditDialog {
  import opened Wrappers
  import Text
  import opened Tags

  /** The lists handed to `onSave`: both trimmed, empty ones included. */
  function Submitted(good: string, bad: string): (r: TagData)
    ensures Text.IsTrimmed(r.goodChampions) && Text.IsTrimmed(r.badChampions)
    ensures |r.goodChampions| <= |good| && |r.badChampions| <= |bad|
    ensures r.goodChampions == Text.Trim(good) && r.badChampions == Text.Trim(bad)
  {
    TagData(Text.Trim(good), Text.Trim(bad))
  }

  /** With no emptiness check, a list of only whitespace is saved as the
      empty list. */
  lemma BlankListSaved(good: string, bad: string)
    requires forall i :: 0 <= i < |good| ==> Text.IsWhitespace(good[i])
    ensures Submitted(good, bad).goodChampions == ""
  {
    Text.TrimBlank(good);
  }

  /** Tag data whose lists are already trimmed is saved back unchanged. */
  lemma SubmitTrimmed(data: TagData)
    requires Text.IsTrimmed(data.goodChampions) && Text.IsTrimmed(data.badChampions)
    ensures Submitted(data.goodChampions, data.badChampions) == data
  {
    Text.TrimOfTrimmed(data.goodChampions);
    Text.TrimOfTrimmed(data.badChampions);
  }

  class TagEditForm {
    var goodChampions: string
    var badChampions: string
    var open: bool

    constructor (open: bool)
      ensures goodChampions == "" && badChampions == "" && this.open == open
    {
      goodChampions, badChampions := "", "";
      this.open := open;
    }

    /** The effect that runs when the `tagData` prop changes: without data the
        form keeps what it has. */
    method Load(data: Option<TagData>)
      modifies this
      ensures data.None? ==> unchanged(this)
      ensures data.Some? ==>
        goodChampions == data.value.goodChampions && badChampions == data.value.badChampions
        && open == old(open)
    {
      if data.Some? {
        goodChampions := data.value.goodChampions;
        badChampions := data.value.badChampions;
      }
    }

    /** `handleSubmit`: hands the tag name and the trimmed lists on, with no
        emptiness check, and closes the dialog. */
    method Submit(tagName: string) returns (name: string, data: TagData)
      modifies this
      ensures name == tagName && data == Submitted(old(goodChampions), old(badChampions))
      ensures goodChampions == old(goodChampions) && badChampions == old(badChampions)
      ensures !open
    {
      name := tagName;
      data := Submitted(goodChampions, badChampions);
      open := false;
    }
  }
}
