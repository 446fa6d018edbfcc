/** The roster page's queries (src/pages/Roster.tsx): the star rank of a
    champion, the multi-select toggle of star ranks, and the conjunction of
    filters that decides which champions are listed. Champions are the
    spreadsheet rows of the `Roster` sheet. */
module Roster {
  import opened Wrappers
  import opened Js
  import Text
  import Seqs

  /** `Star_power_<i>`. */
  function StarKey(i: nat): string {
    "Star_power_" + Text.NatToString(i)
  }

  /** `champion[`Star_power_${i}`]` is truthy. */
  predicate StarFlag(c: Row, i: nat) {
    StarKey(i) in c && Truthy(c[StarKey(i)])
  }

  /** The highest `i` in `1..n` whose flag is set, or 0. */
  function HighestFlag(c: Row, n: nat): (r: nat)
    ensures r <= n
    ensures r > 0 ==> StarFlag(c, r)
    ensures forall j :: r < j <= n ==> !StarFlag(c, j)
  {
    if n == 0 then 0 else if StarFlag(c, n) then n else HighestFlag(c, n - 1)
  }

  /** A champion's star rank: the highest of its six star powers that is set. */
  function StarRank(c: Row): (r: nat)
    ensures r <= 6
  {
    HighestFlag(c, 6)
  }

  /** `getChampionStars`: the loop over the six flags, the last set one winning. */
  method GetChampionStars(c: Row) returns (stars: nat)
    ensures stars == StarRank(c)
    ensures stars <= 6
    ensures stars > 0 ==> StarFlag(c, stars)
    ensures forall j :: stars < j <= 6 ==> !StarFlag(c, j)
  {
    stars := 0;
    for i := 1 to 7
      invariant stars < i
      invariant stars > 0 ==> StarFlag(c, stars)
      invariant forall j :: stars < j < i ==> !StarFlag(c, j)
    {
      if StarKey(i) in c && Truthy(c[StarKey(i)]) {
        stars := i;
      }
    }
    RankIsHighestFlag(c, stars);
  }

  /** Any number with the three properties of the loop's result is the rank. */
  lemma RankIsHighestFlag(c: Row, k: nat)
    requires k <= 6 && (k > 0 ==> StarFlag(c, k))
    requires forall j :: k < j <= 6 ==> !StarFlag(c, j)
    ensures StarRank(c) == k
  {
  }

  /** The rank ignores gaps: flags 2 and 5 give rank 5, with 3 and 4 unset. */
  lemma RankWithGaps()
    ensures StarRank(map[StarKey(2) := Bool(true), StarKey(5) := Bool(true)]) == 5
  {
    var c := map[StarKey(2) := Bool(true), StarKey(5) := Bool(true)];
    assert StarKey(5) == "Star_power_5" && StarKey(6) == "Star_power_6" && StarKey(2) == "Star_power_2";
    assert StarFlag(c, 5);
    assert !StarFlag(c, 6);
    RankIsHighestFlag(c, 5);
  }

  // ---------------------------------------------------------------------
  // Star selection
  // ---------------------------------------------------------------------

  /** The filter callback `s => s !== star`. */
  function Unselect(star: int): int -> bool {
    (s: int) => s != star
  }

  /** `handleStarToggle(star)`: remove every occurrence if selected, else append. */
  function Toggle(selected: seq<int>, star: int): (r: seq<int>)
    ensures star in selected ==> star !in r && forall i :: 0 <= i < |r| ==> r[i] in selected
    ensures star !in selected ==> r == selected + [star]
  {
    if star in selected then Seqs.Filter(selected, Unselect(star)) else selected + [star]
  }

  /** Toggling flips the membership of that rank and no other. */
  lemma ToggleMembership(selected: seq<int>, star: int, x: int)
    ensures x in Toggle(selected, star) <==> if x == star then star !in selected else x in selected
  {
  }

  /** Toggling never creates a duplicate. */
  lemma ToggleNoDuplicates(selected: seq<int>, star: int)
    requires Seqs.NoDuplicates(selected)
    ensures Seqs.NoDuplicates(Toggle(selected, star))
  {
    if star in selected {
      Seqs.FilterNoDuplicates(selected, Unselect(star));
    }
  }

  /** Toggling twice selects the same ranks; when the rank was not selected
      it restores the very same list. */
  lemma ToggleTwice(selected: seq<int>, star: int)
    ensures forall x :: x in Toggle(Toggle(selected, star), star) <==> x in selected
    ensures star !in selected ==> Toggle(Toggle(selected, star), star) == selected
  {
    if star !in selected {
      var once := selected + [star];
      var twice := Toggle(once, star);
      assert star in once;
      FilterSnocDropped(selected, star);
    }
  }

  /** Removing `star` from `xs + [star]` gives `xs` back when `xs` lacks it. */
  lemma {:induction false} FilterSnocDropped(xs: seq<int>, star: int)
    requires star !in xs
    ensures Seqs.Filter(xs + [star], Unselect(star)) == xs
  {
    var ys := xs + [star];
    if xs == [] {
      assert ys[1..] == [];
    } else {
      assert ys[0] == xs[0] && ys[1..] == xs[1..] + [star];
      FilterSnocDropped(xs[1..], star);
      assert Seqs.Filter(ys, Unselect(star)) == [xs[0]] + Seqs.Filter(ys[1..], Unselect(star));
      assert xs == [xs[0]] + xs[1..];
    }
  }


  // ---------------------------------------------------------------------
  // The filter
  // ---------------------------------------------------------------------

  /** The page's filter settings. */
  datatype Criteria = Criteria(searchTerm: string, region: string, level: int, stars: seq<int>)

  /** The settings the page starts with. */
  const Unfiltered := Criteria("", "All", 0, [])

  /** `champion.Champion_level >= level` with JavaScript's coercion for the
      values a level cell holds: `null` counts as 0, booleans as 0 or 1, and
      a missing value never passes. */
  predicate AtLeastLevel(v: Option<Json>, level: int) {
    match v
    case Some(Num(n)) => n >= level
    case Some(Null) => 0 >= level
    case Some(Bool(b)) => (if b then 1 else 0) >= level
    case _ => false
  }

  /** The four conjuncts of the filter, for a champion whose name is a string. */
  predicate Matches(c: Row, name: string, crit: Criteria) {
    && Text.Contains(Text.Lower(name), Text.Lower(crit.searchTerm))
    && (crit.region == "All" || Get(c, "Region") == Some(Str(crit.region))
        || Get(c, "Region_2") == Some(Str(crit.region)))
    && (crit.level == 0 || AtLeastLevel(Get(c, "Champion_level"), crit.level))
    && (|crit.stars| == 0 || StarRank(c) in crit.stars)
  }

  /** A roster entry the filter can read: an object with a string name. */
  predicate Listable(v: Json) {
    v.Obj? && StrField(v.fields, "Champion_name").Some?
  }

  predicate Passes(crit: Criteria, v: Json) {
    Listable(v) && Matches(v.fields, v.fields["Champion_name"].s, crit)
  }

  /** The filter's test for fixed criteria. */
  function PassesAll(crit: Criteria): Json -> bool {
    (v: Json) => Passes(crit, v)
  }

  /** `filteredChampions`. Reading the name of an entry that has no string
      name throws, which is the `Err` case. Otherwise every passing entry is
      listed, each occurrence kept, in roster order. */
  function FilterChampions(champions: seq<Json>, crit: Criteria): (r: Result<seq<Json>, string>)
    ensures r.Err? <==> exists i :: 0 <= i < |champions| && !Listable(champions[i])
    ensures r.Ok? ==> Seqs.IsSubsequence(r.value, champions)
    ensures r.Ok? ==> forall i :: 0 <= i < |r.value| ==> Passes(crit, r.value[i])
    ensures r.Ok? ==> forall i :: 0 <= i < |champions| && Passes(crit, champions[i]) ==> champions[i] in r.value
    ensures r.Ok? ==> |r.value| == Seqs.Count(champions, PassesAll(crit))
  {
    if exists i :: 0 <= i < |champions| && !Listable(champions[i]) then Err("TypeError: toLowerCase of a missing name")
    else
      Seqs.FilterLength(champions, PassesAll(crit));
      Ok(Seqs.Filter(champions, PassesAll(crit)))
  }

  /** With the initial settings every champion is listed. */
  lemma UnfilteredListsAll(champions: seq<Json>)
    requires forall i :: 0 <= i < |champions| ==> Listable(champions[i])
    ensures FilterChampions(champions, Unfiltered) == Ok(champions)
  {
    assert Text.Lower("") == "";
    forall i | 0 <= i < |champions| ensures Passes(Unfiltered, champions[i]) {
      Text.ContainsEmpty(Text.Lower(champions[i].fields["Champion_name"].s));
    }
    Seqs.FilterAll(champions, PassesAll(Unfiltered));
  }
}
