/** The champion-list splitter of the mutator card
    (src/components/mutators/MutatorCard.tsx): the names a card shows as
    recommended or discouraged champions. */
module MutatorCard {
  import Text
  import Seqs
  import Mutators

  /** `filter(Boolean)` on strings: only the empty string is dropped. */
  function NonEmpty(p: string): bool {
    p != ""
  }

  /** `parseChampions`: split on `,` or `;`, trim, drop the empty pieces.
      Every non-empty trimmed piece is kept, as often as it occurs, and in
      order. */
  function ParseChampions(s: string): (r: seq<string>)
    ensures s == "" ==> r == []
    ensures forall i :: 0 <= i < |r| ==> r[i] != "" && Text.IsTrimmed(r[i]) && Text.SeparatorFree(r[i])
    ensures Seqs.IsSubsequence(r, Mutators.Pieces(s))
    ensures forall k :: 0 <= k < |Mutators.Pieces(s)| && Mutators.Pieces(s)[k] != "" ==> Mutators.Pieces(s)[k] in r
    ensures |r| == Seqs.Count(Mutators.Pieces(s), NonEmpty)
  {
    if s == "" then []
    else
      var parts := Text.Split(s);
      var pieces := Mutators.Pieces(s);
      forall k | 0 <= k < |pieces| ensures Text.SeparatorFree(pieces[k]) && Text.IsTrimmed(pieces[k]) {
        Text.TrimAllAt(parts, k);
        Text.TrimSeparatorFree(parts[k]);
      }
      Seqs.FilterLength(pieces, NonEmpty);
      Seqs.Filter(pieces, NonEmpty)
  }

  /** Joining a non-empty list whose first element is non-empty gives a
      non-empty text. */
  lemma JoinNotEmpty(names: seq<string>)
    requires names != [] && names[0] != ""
    ensures Text.Join(names, ",") != ""
  {
    var s := Text.Join(names, ",");
    if |names| > 1 {
      assert s == names[0] + "," + Text.Join(names[1..], ",");
    }
    assert s[..|names[0]|] == names[0];
  }

  /** The trimmed pieces of such a joined list are the names themselves. */
  lemma PiecesOfJoin(names: seq<string>)
    requires names != []
    requires forall i :: 0 <= i < |names| ==>
      names[i] != "" && Text.IsTrimmed(names[i]) && Text.SeparatorFree(names[i])
    ensures Mutators.Pieces(Text.Join(names, ",")) == names
  {
    var s := Text.Join(names, ",");
    JoinNotEmpty(names);
    Text.SplitJoin(names);
    Mutators.PiecesOfTrimmedParts(s, names);
  }

  /** A list of non-empty, trimmed names without separators survives being
      joined with `,` and parsed again. */
  lemma ParseJoin(names: seq<string>)
    requires forall i :: 0 <= i < |names| ==>
      names[i] != "" && Text.IsTrimmed(names[i]) && Text.SeparatorFree(names[i])
    ensures ParseChampions(Text.Join(names, ",")) == names
  {
    if names != [] {
      JoinNotEmpty(names);
      PiecesOfJoin(names);
      Seqs.FilterAll(names, NonEmpty);
    }
  }
}
