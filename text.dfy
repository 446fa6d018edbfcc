/** The JavaScript string built-ins the data layer relies on: `trim`,
    `toLowerCase` (ASCII only), `includes`, `split(/[,;]/)`, `join`,
    number-to-string rendering and `parseInt` with a `|| 0` fallback. */
module Text {

  // ---------------------------------------------------------------------
  // Whitespace and trim
  // ---------------------------------------------------------------------

  /** The WhiteSpace and LineTerminator code points that `String.prototype.trim`
      strips (ECMAScript: TAB, VT, FF, SP, NBSP, ZWNBSP, the Zs category, LF, CR,
      LS, PS). */
  predicate IsWhitespace(c: char) {
    || c == '\t' || c == '\n' || c == '\U{000B}' || c == '\U{000C}' || c == '\r'
    || c == ' ' || c == '\U{00A0}' || c == '\U{1680}'
    || ('\U{2000}' <= c <= '\U{200A}')
    || c == '\U{2028}' || c == '\U{2029}' || c == '\U{202F}' || c == '\U{205F}'
    || c == '\U{3000}' || c == '\U{FEFF}'
  }

  /** No whitespace at either end. */
  predicate IsTrimmed(s: string) {
    s == [] || (!IsWhitespace(s[0]) && !IsWhitespace(s[|s| - 1]))
  }

  /** Drops leading whitespace: the result is the suffix of `s` that starts at
      its first non-whitespace character. */
  function TrimStart(s: string): (r: string)
    ensures |r| <= |s| && r == s[|s| - |r|..]
    ensures forall i :: 0 <= i < |s| - |r| ==> IsWhitespace(s[i])
    ensures r == [] || !IsWhitespace(r[0])
  {
    if s != [] && IsWhitespace(s[0]) then TrimStart(s[1..]) else s
  }

  /** Drops trailing whitespace: the result is the prefix of `s` that ends at its
      last non-whitespace character. */
  function TrimEnd(s: string): (r: string)
    ensures |r| <= |s| && r == s[..|r|]
    ensures forall i :: |r| <= i < |s| ==> IsWhitespace(s[i])
    ensures r == [] || !IsWhitespace(r[|r| - 1])
  {
    if s != [] && IsWhitespace(s[|s| - 1]) then TrimEnd(s[..|s| - 1]) else s
  }

  /** The number of white-space characters `s` starts with. */
  function LeadingSpace(s: string): (n: nat)
    ensures n <= |s|
    ensures forall i :: 0 <= i < n ==> IsWhitespace(s[i])
    ensures n < |s| ==> !IsWhitespace(s[n])
  {
    |s| - |TrimStart(s)|
  }

  /** `s.trim()`: the input with the white space at both ends removed, that
      is, the trimmed slice of `s` that starts after its leading white space
      and has only white space after it. */
  function Trim(s: string): (r: string)
    ensures IsTrimmed(r)
    ensures |r| <= |s|
    ensures LeadingSpace(s) + |r| <= |s| && r == s[LeadingSpace(s)..LeadingSpace(s) + |r|]
    ensures forall i :: LeadingSpace(s) + |r| <= i < |s| ==> IsWhitespace(s[i])
  {
    var t := TrimStart(s);
    var r := TrimEnd(t);
    assert r != [] ==> r[0] == t[0];
    SuffixPrefixSlice(s, |s| - |t|, r);
    r
  }

  /** A prefix of a suffix is a slice, and white space after the prefix in the
      suffix is white space after the slice in the whole. */
  lemma SuffixPrefixSlice(s: string, a: int, r: string)
    requires 0 <= a <= |s| && |r| <= |s| - a && r == s[a..][..|r|]
    requires forall i :: |r| <= i < |s| - a ==> IsWhitespace(s[a..][i])
    ensures r == s[a..a + |r|]
    ensures forall i :: a + |r| <= i < |s| ==> IsWhitespace(s[i])
  {
    forall i | a + |r| <= i < |s|
      ensures IsWhitespace(s[i])
    {
      assert s[a..][i - a] == s[i];
    }
  }

  /** `trim` gives the empty string exactly for an all-whitespace input. */
  lemma TrimBlank(s: string)
    ensures Trim(s) == [] <==> forall i :: 0 <= i < |s| ==> IsWhitespace(s[i])
  {
    var t := TrimStart(s);
    var r := TrimEnd(t);
    assert r == [] ==> t == [];
    assert r != [] ==> !IsWhitespace(s[|s| - |t|]);
  }

  lemma {:induction false} TrimStartOfTrimmed(s: string)
    requires s == [] || !IsWhitespace(s[0])
    ensures TrimStart(s) == s
  {
  }

  lemma {:induction false} TrimEndOfTrimmed(s: string)
    requires s == [] || !IsWhitespace(s[|s| - 1])
    ensures TrimEnd(s) == s
  {
  }

  /** Trimming a string that is already trimmed changes nothing. */
  lemma {:induction false} TrimOfTrimmed(s: string)
    requires IsTrimmed(s)
    ensures Trim(s) == s
  {
    TrimStartOfTrimmed(s);
    TrimEndOfTrimmed(s);
  }

  /** `trim` is idempotent. */
  lemma {:induction false} TrimIdempotent(s: string)
    ensures Trim(Trim(s)) == Trim(s)
  {
    TrimOfTrimmed(Trim(s));
  }

  // ---------------------------------------------------------------------
  // Lower case and substring search
  // ---------------------------------------------------------------------

  /** ASCII lower-casing of one character; every other character is kept. */
  function LowerChar(c: char): char {
    if 'A' <= c <= 'Z' then (c as int + 32) as char else c
  }

  /** `s.toLowerCase()`, restricted to ASCII letters. */
  function Lower(s: string): (r: string)
    ensures |r| == |s|
    ensures forall i :: 0 <= i < |s| ==> r[i] == LowerChar(s[i])
  {
    if s == [] then [] else [LowerChar(s[0])] + Lower(s[1..])
  }

  /** `needle` occurs in `hay` starting at `i`. */
  ghost predicate OccursAt(hay: string, needle: string, i: int) {
    0 <= i && i + |needle| <= |hay| && hay[i..i + |needle|] == needle
  }

  /** `hay.includes(needle)`: scans the start positions left to right. */
  function Contains(hay: string, needle: string): (b: bool)
    ensures b <==> exists i :: OccursAt(hay, needle, i)
  {
    if |needle| <= |hay| && hay[..|needle|] == needle then
      assert OccursAt(hay, needle, 0);
      true
    else if |needle| > |hay| then
      false
    else
      var b := Contains(hay[1..], needle);
      assert b ==> exists i :: OccursAt(hay, needle, i) by {
        if b {
          var i :| OccursAt(hay[1..], needle, i);
          assert hay[1..][i..i + |needle|] == hay[i + 1..i + 1 + |needle|];
          assert OccursAt(hay, needle, i + 1);
        }
      }
      assert (exists i :: OccursAt(hay, needle, i)) ==> b by {
        if exists i :: OccursAt(hay, needle, i) {
          var i :| OccursAt(hay, needle, i);
          assert i != 0;
          assert hay[1..][i - 1..i - 1 + |needle|] == hay[i..i + |needle|];
          assert OccursAt(hay[1..], needle, i - 1);
        }
      }
      b
  }

  /** The empty search string is found in every string. */
  lemma ContainsEmpty(hay: string)
    ensures Contains(hay, "")
  {
    assert OccursAt(hay, "", 0);
  }

  // ---------------------------------------------------------------------
  // split(/[,;]/) and join
  // ---------------------------------------------------------------------

  /** The characters of the regular expression `/[,;]/`. */
  predicate IsSeparator(c: char) {
    c == ',' || c == ';'
  }

  predicate SeparatorFree(s: string) {
    forall i :: 0 <= i < |s| ==> !IsSeparator(s[i])
  }

  /** `s.split(/[,;]/)`: the maximal separator-free pieces between separators,
      empty pieces included; the empty string splits into one empty piece. */
  function Split(s: string): (r: seq<string>)
    ensures |r| >= 1
    ensures forall k :: 0 <= k < |r| ==> SeparatorFree(r[k])
    ensures SeparatorFree(s) ==> r == [s]
  {
    if s == [] then [""]
    else if IsSeparator(s[0]) then [""] + Split(s[1..])
    else
      var rest := Split(s[1..]);
      assert forall i :: 0 < i < |s| ==> s[i] == s[1..][i - 1];
      assert SeparatorFree(s) ==> rest == [s[1..]] && [s[0]] + s[1..] == s;
      [[s[0]] + rest[0]] + rest[1..]
  }

  /** Adjacent separators delimit an empty piece, which is kept. */
  lemma SplitKeepsEmptyPieces()
    ensures Split("A,,B") == ["A", "", "B"]
  {
    assert Split("B") == ["B"];
    assert ",B"[1..] == "B" && ",,B"[1..] == ",B" && "A,,B"[1..] == ",,B";
    assert Split(",B") == ["", "B"];
    assert Split(",,B") == ["", "", "B"];
    assert ['A'] + "" == "A";
  }

  /** The first piece is the text up to the first separator, and the rest of
      the pieces are those of the text after it. With the separator-free case
      of `Split`'s contract this fixes the pieces of every text. */
  lemma SplitAtSeparator(a: string, c: char, b: string)
    requires SeparatorFree(a) && IsSeparator(c)
    ensures Split(a + [c] + b) == [a] + Split(b)
  {
    assert ([c] + b)[1..] == b;
    assert Split([c] + b) == [""] + Split(b);
    SplitConcat(a, [c] + b);
    assert a + [c] + b == a + ([c] + b);
    assert a + "" == a;
  }

  /** `parts.map(c => c.trim())`. */
  function TrimAll(parts: seq<string>): (r: seq<string>)
    ensures |r| == |parts|
  {
    if parts == [] then [] else TrimAll(parts[..|parts| - 1]) + [Trim(parts[|parts| - 1])]
  }

  /** Each element of the mapped list is the trimmed part at the same place. */
  lemma {:induction false} TrimAllAt(parts: seq<string>, k: int)
    requires 0 <= k < |parts|
    ensures TrimAll(parts)[k] == Trim(parts[k])
  {
    if k < |parts| - 1 {
      TrimAllAt(parts[..|parts| - 1], k);
    }
  }

  /** Mapping one more part maps it onto the end. */
  lemma TrimAllSnoc(parts: seq<string>, j: nat)
    requires j < |parts|
    ensures TrimAll(parts[..j + 1]) == TrimAll(parts[..j]) + [Trim(parts[j])]
  {
    assert parts[..j + 1][..j] == parts[..j];
  }

  /** Trimming only removes characters, so it introduces no separator. */
  lemma TrimSeparatorFree(s: string)
    requires SeparatorFree(s)
    ensures SeparatorFree(Trim(s))
  {
    var t := TrimStart(s);
    SeparatorFreeSlice(s, |s| - |t|, |s|);
    SeparatorFreeSlice(t, 0, |TrimEnd(t)|);
  }

  lemma SeparatorFreeSlice(s: string, a: int, b: int)
    requires SeparatorFree(s) && 0 <= a <= b <= |s|
    ensures SeparatorFree(s[a..b])
  {
  }

  /** `xs.join(sep)`. */
  function Join(xs: seq<string>, sep: string): string {
    if xs == [] then ""
    else if |xs| == 1 then xs[0]
    else xs[0] + sep + Join(xs[1..], sep)
  }

  lemma {:induction false} SplitConcat(a: string, b: string)
    requires SeparatorFree(a)
    ensures Split(a + b) == [a + Split(b)[0]] + Split(b)[1..]
    decreases |a|
  {
    if a == [] {
      assert a + b == b && a + Split(b)[0] == Split(b)[0];
    } else {
      assert (a + b)[0] == a[0] && (a + b)[1..] == a[1..] + b;
      SplitConcat(a[1..], b);
      assert [a[0]] + (a[1..] + Split(b)[0]) == a + Split(b)[0];
    }
  }

  /** Splitting a list joined with "," gives the list back, when no name holds a
      separator. */
  lemma {:induction false} SplitJoin(xs: seq<string>)
    requires xs != []
    requires forall k :: 0 <= k < |xs| ==> SeparatorFree(xs[k])
    ensures Split(Join(xs, ",")) == xs
  {
    if |xs| == 1 {
    } else {
      var rest := Join(xs[1..], ",");
      SplitJoin(xs[1..]);
      assert Join(xs, ",") == xs[0] + ("," + rest);
      SplitConcat(xs[0], "," + rest);
      assert ("," + rest)[1..] == rest;
      assert Split("," + rest) == [""] + Split(rest);
      assert xs[0] + "" == xs[0];
      assert xs == [xs[0]] + xs[1..];
    }
  }

  /** The other direction: joining the pieces of a string with "," rebuilds it,
      when the only separator it uses is ",". */
  lemma {:induction false} JoinSplit(s: string)
    requires forall i :: 0 <= i < |s| ==> s[i] != ';'
    ensures Join(Split(s), ",") == s
  {
    if s == [] {
    } else if IsSeparator(s[0]) {
      JoinSplit(s[1..]);
      assert s == "," + s[1..];
    } else {
      JoinSplit(s[1..]);
      var rest := Split(s[1..]);
      if |rest| == 1 {
      } else {
        assert Join(rest, ",") == rest[0] + "," + Join(rest[1..], ",");
        assert ([[s[0]] + rest[0]] + rest[1..])[1..] == rest[1..];
      }
    }
  }

  // ---------------------------------------------------------------------
  // Decimal rendering of numbers and parseInt
  // ---------------------------------------------------------------------

  predicate IsDigit(c: char) {
    '0' <= c <= '9'
  }

  predicate AllDigits(s: string) {
    forall i :: 0 <= i < |s| ==> IsDigit(s[i])
  }

  function DigitChar(d: nat): (c: char)
    requires d < 10
    ensures IsDigit(c)
  {
    ('0' as int + d) as char
  }

  function DigitValue(c: char): nat
    requires IsDigit(c)
  {
    c as int - '0' as int
  }

  /** The value of a string of decimal digits (the empty string is 0). */
  function DigitsValue(s: string): nat
    requires AllDigits(s)
  {
    if s == [] then 0 else DigitsValue(s[..|s| - 1]) * 10 + DigitValue(s[|s| - 1])
  }

  /** `n.toString()` for a non-negative integer: its decimal digits without
      leading zeros. */
  function NatToString(n: nat): (r: string)
    ensures r != [] && AllDigits(r)
    ensures r[0] == '0' ==> n == 0
  {
    if n < 10 then [DigitChar(n)]
    else NatToString(n / 10) + [DigitChar(n % 10)]
  }

  /** `String(i)` for an integer. */
  function IntToString(i: int): (r: string)
    ensures r != []
  {
    if i < 0 then "-" + NatToString(-i) else NatToString(i)
  }

  /** Reading back the digits of `n` gives `n`. */
  lemma {:induction false} DigitsValueOfNatToString(n: nat)
    ensures DigitsValue(NatToString(n)) == n
  {
    if n >= 10 {
      var s := NatToString(n);
      DigitsValueOfNatToString(n / 10);
      assert s[..|s| - 1] == NatToString(n / 10);
    }
  }

  /** Distinct numbers render to distinct strings. */
  lemma NatToStringInjective(a: nat, b: nat)
    requires NatToString(a) == NatToString(b)
    ensures a == b
  {
    DigitsValueOfNatToString(a);
    DigitsValueOfNatToString(b);
  }

  /** Position of the last `-` in `s`, or -1. */
  function LastDash(s: string): (r: int)
    ensures -1 <= r < |s|
    ensures r >= 0 ==> s[r] == '-'
    ensures forall i :: r < i < |s| ==> s[i] != '-'
  {
    if s == [] then -1
    else if s[|s| - 1] == '-' then |s| - 1
    else LastDash(s[..|s| - 1])
  }

  /** In a string that ends with `-` followed by digits, that `-` is the last. */
  lemma LastDashBeforeDigits(p: string, d: string)
    requires p != [] && p[|p| - 1] == '-' && AllDigits(d)
    ensures LastDash(p + d) == |p| - 1
  {
    var s := p + d;
    assert s[|p| - 1] == '-';
    assert forall i :: |p| <= i < |s| ==> s[i] == d[i - |p|];
  }

  /** Two strings that end in `-` and a run of digits agree on those digits. */
  lemma DigitSuffixDetermined(p1: string, d1: string, p2: string, d2: string)
    requires p1 != [] && p1[|p1| - 1] == '-' && AllDigits(d1)
    requires p2 != [] && p2[|p2| - 1] == '-' && AllDigits(d2)
    requires p1 + d1 == p2 + d2
    ensures d1 == d2
  {
    LastDashBeforeDigits(p1, d1);
    LastDashBeforeDigits(p2, d2);
    var s := p1 + d1;
    assert d1 == s[|p1|..] && d2 == (p2 + d2)[|p2|..];
  }

  /** The longest prefix of `s` made of digits. */
  function DigitPrefix(s: string): (r: string)
    ensures |r| <= |s| && r == s[..|r|] && AllDigits(r)
    ensures |r| < |s| ==> !IsDigit(s[|r|])
  {
    if s != [] && IsDigit(s[0]) then [s[0]] + DigitPrefix(s[1..]) else []
  }

  lemma {:induction false} DigitPrefixOfDigits(s: string)
    requires AllDigits(s)
    ensures DigitPrefix(s) == s
  {
    if s != [] {
      DigitPrefixOfDigits(s[1..]);
    }
  }

  /** `parseInt(text) || 0` in base ten: leading whitespace is skipped, one
      optional sign is read, then the longest run of digits; text without such
      digits (NaN) and negative zero both give 0. */
  function ParseIntOrZero(text: string): int {
    var t := TrimStart(text);
    var negative := t != [] && t[0] == '-';
    var unsigned := if t != [] && (t[0] == '-' || t[0] == '+') then t[1..] else t;
    var digits := DigitPrefix(unsigned);
    var magnitude: int := if digits == [] then 0 else DigitsValue(digits);
    if negative then -magnitude else magnitude
  }

  /** After leading white space and an optional sign, no digit follows. */
  predicate NoLeadingDigits(text: string) {
    var t := TrimStart(text);
    var u := if t != [] && (t[0] == '-' || t[0] == '+') then t[1..] else t;
    u == [] || !IsDigit(u[0])
  }

  lemma ParseIntWithoutDigits(text: string)
    requires NoLeadingDigits(text)
    ensures ParseIntOrZero(text) == 0
  {
  }

  /** `parseInt` reads back what `String` renders. */
  lemma {:induction false} ParseIntOfIntToString(i: int)
    ensures ParseIntOrZero(IntToString(i)) == i
  {
    var s := IntToString(i);
    if i < 0 {
      var n := NatToString(-i);
      assert s == "-" + n;
      assert s[0] == '-' && s[1..] == n;
      TrimStartOfTrimmed(s);
      DigitPrefixOfDigits(n);
      DigitsValueOfNatToString(-i);
    } else {
      assert IsDigit(s[0]);
      TrimStartOfTrimmed(s);
      DigitPrefixOfDigits(s);
      DigitsValueOfNatToString(i);
    }
  }

  /** Every integer `String` renders reads back through `parseInt`. */
  lemma ParseIntOfEveryIntToString()
    ensures forall i :: ParseIntOrZero(IntToString(i)) == i
  {
    forall i
      ensures ParseIntOrZero(IntToString(i)) == i
    {
      ParseIntOfIntToString(i);
    }
  }
}
