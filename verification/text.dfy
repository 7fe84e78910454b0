/** The string operations the matcher and the dialogue handlers build on:
    ASCII case mapping, the JavaScript `\s` character class, `trim`,
    regular-expression character-class deletion, whitespace tokenising,
    `includes`, the generic-word deletion of the target pipeline and
    `split(' ').pop()`.
 */
module Text {

  // ---------------------------------------------------------------------
  // Character classes
  // ---------------------------------------------------------------------

  /** JavaScript's `\s` (and the set `trim` removes): the ASCII blanks plus
      the Unicode space separators, line and paragraph separators and the
      byte-order mark. */
  predicate IsSpace(c: char)
    ensures c == ' ' || c == '\t' || c == '\n' || c == '\r' ==> IsSpace(c)
    ensures ('a' <= c <= 'z') || ('0' <= c <= '9') ==> !IsSpace(c)
  {
    var n := c as int;
    (9 <= n <= 13) || n == 0x20 || n == 0xA0 || n == 0x1680
    || (0x2000 <= n <= 0x200A) || n == 0x2028 || n == 0x2029
    || n == 0x202F || n == 0x205F || n == 0x3000 || n == 0xFEFF
  }

  /** The class `[a-z0-9]`. */
  predicate IsLowerAlnum(c: char) {
    ('a' <= c <= 'z') || ('0' <= c <= '9')
  }

  /** The class `[a-z0-9\s]`. */
  predicate IsLowerAlnumOrSpace(c: char) {
    IsLowerAlnum(c) || IsSpace(c)
  }

  predicate IsNotSpace(c: char) {
    !IsSpace(c)
  }

  lemma AlnumIsNotSpace(c: char)
    requires IsLowerAlnum(c)
    ensures !IsSpace(c)
  {
  }

  // ---------------------------------------------------------------------
  // Case mapping (ASCII letters only)
  // ---------------------------------------------------------------------

  function LowerChar(c: char): char {
    if 'A' <= c <= 'Z' then (c as int + 32) as char else c
  }

  function UpperChar(c: char): char {
    if 'a' <= c <= 'z' then (c as int - 32) as char else c
  }

  /** `s.toLowerCase()` restricted to ASCII letters. */
  function Lower(s: string): (r: string)
    ensures |r| == |s|
    ensures forall i :: 0 <= i < |r| ==> !('A' <= r[i] <= 'Z')
    ensures forall i :: 0 <= i < |s| && !('A' <= s[i] <= 'Z') ==> r[i] == s[i]
    ensures forall i :: 0 <= i < |s| && 'A' <= s[i] <= 'Z' ==> r[i] as int == s[i] as int + 32
  {
    seq(|s|, i requires 0 <= i < |s| => LowerChar(s[i]))
  }

  /** `s.toUpperCase()` restricted to ASCII letters. */
  function Upper(s: string): (r: string)
    ensures |r| == |s|
    ensures forall i :: 0 <= i < |r| ==> !('a' <= r[i] <= 'z')
    ensures forall i :: 0 <= i < |s| && !('a' <= s[i] <= 'z') ==> r[i] == s[i]
    ensures forall i :: 0 <= i < |s| && 'a' <= s[i] <= 'z' ==> r[i] as int == s[i] as int - 32
  {
    seq(|s|, i requires 0 <= i < |s| => UpperChar(s[i]))
  }

  lemma LowerAppend(a: string, b: string)
    ensures Lower(a + b) == Lower(a) + Lower(b)
  {
    assert forall i :: 0 <= i < |a + b| ==> Lower(a + b)[i] == (Lower(a) + Lower(b))[i];
  }

  // ---------------------------------------------------------------------
  // trim and character deletion
  // ---------------------------------------------------------------------

  function TrimStart(s: string): (r: string)
    ensures |r| <= |s| && r == s[|s| - |r|..]
    ensures forall i :: 0 <= i < |s| - |r| ==> IsSpace(s[i])
    ensures r != [] ==> !IsSpace(r[0])
    decreases |s|
  {
    if s != [] && IsSpace(s[0]) then TrimStart(s[1..]) else s
  }

  function TrimEnd(s: string): (r: string)
    ensures |r| <= |s| && r == s[..|r|]
    ensures forall i :: |r| <= i < |s| ==> IsSpace(s[i])
    ensures r != [] ==> !IsSpace(r[|r| - 1])
    decreases |s|
  {
    if s != [] && IsSpace(s[|s| - 1]) then TrimEnd(s[..|s| - 1]) else s
  }

  /** `r` is the slice of `s` starting at `a` with only whitespace before
      and after it. */
  predicate TrimmedAt(s: string, r: string, a: nat) {
    a + |r| <= |s| && r == s[a..a + |r|]
    && (forall i :: 0 <= i < a ==> IsSpace(s[i]))
    && (forall i :: a + |r| <= i < |s| ==> IsSpace(s[i]))
  }

  /** `s.trim()`: the slice of `s` between its leading and its trailing
      whitespace, with no whitespace at either end. It keeps every
      non-whitespace character. */
  function Trim(s: string): (r: string)
    ensures exists a: nat :: TrimmedAt(s, r, a)
    ensures r != [] ==> !IsSpace(r[0]) && !IsSpace(r[|r| - 1])
    ensures forall c :: c in r ==> c in s
    ensures forall i :: 0 <= i < |s| && !IsSpace(s[i]) ==> s[i] in r
  {
    TrimFacts(s);
    TrimEnd(TrimStart(s))
  }

  lemma TrimFacts(s: string)
    ensures TrimmedAt(s, TrimEnd(TrimStart(s)), |s| - |TrimStart(s)|)
    ensures forall i :: 0 <= i < |s| && !IsSpace(s[i]) ==> s[i] in TrimEnd(TrimStart(s))
  {
    TrimIsSlice(s);
    TrimKeepsNonSpace(s);
  }

  lemma TrimIsSlice(s: string)
    ensures TrimmedAt(s, TrimEnd(TrimStart(s)), |s| - |TrimStart(s)|)
  {
    var t := TrimStart(s);
    var r := TrimEnd(t);
    var a: nat := |s| - |t|;
    assert t == s[a..];
    SliceOfSuffix(s, t, a, |r|);
    assert r == s[a..a + |r|];
    assert forall i :: 0 <= i < a ==> IsSpace(s[i]);
    assert TrimmedAt(s, r, a);
  }

  /** A prefix of a suffix is a slice; whitespace after the prefix within
      the suffix is whitespace after the slice. */
  lemma SliceOfSuffix(s: string, t: string, a: nat, n: nat)
    requires a <= |s| && t == s[a..] && n <= |t|
    requires forall k :: n <= k < |t| ==> IsSpace(t[k])
    ensures t[..n] == s[a..a + n]
    ensures forall i :: a + n <= i < |s| ==> IsSpace(s[i])
  {
    forall i | a + n <= i < |s| ensures IsSpace(s[i]) {
      assert s[i] == t[i - a];
    }
  }

  lemma TrimKeepsNonSpace(s: string)
    ensures forall i :: 0 <= i < |s| && !IsSpace(s[i]) ==> s[i] in TrimEnd(TrimStart(s))
  {
    var t := TrimStart(s);
    var r := TrimEnd(t);
    forall i | 0 <= i < |s| && !IsSpace(s[i]) ensures s[i] in r {
      var k := i - (|s| - |t|);
      assert 0 <= k < |t| && t[k] == s[i];
      assert k < |r| && r[k] == t[k];
    }
  }

  /** A string with no whitespace at either end is its own trim. */
  lemma TrimNoEdgeSpace(s: string)
    requires s != [] ==> !IsSpace(s[0]) && !IsSpace(s[|s| - 1])
    ensures Trim(s) == s
  {
    assert TrimStart(s) == s;
  }

  /** `s.replace(/[^class]/g, '')` for the class `keep`: the characters of
      `s` that `keep` accepts, in order. */
  function Filter(s: string, keep: char -> bool): (r: string)
    ensures |r| <= |s|
    ensures forall i :: 0 <= i < |r| ==> keep(r[i])
    ensures forall c :: c in r <==> c in s && keep(c)
    decreases |s|
  {
    if s == [] then []
    else
      var rest := Filter(s[1..], keep);
      assert forall c :: c in s <==> c == s[0] || c in s[1..];
      if keep(s[0]) then [s[0]] + rest else rest
  }

  /** A single character is kept exactly when the class accepts it. With
      `FilterAppend` this fixes the result: the accepted characters of the
      input, in order, each as often as it occurs. */
  lemma FilterSingleton(c: char, keep: char -> bool)
    ensures Filter([c], keep) == if keep(c) then [c] else []
  {
    assert [c][1..] == [];
  }

  /** Filtering distributes over concatenation. */
  lemma {:induction false} FilterAppend(a: string, b: string, keep: char -> bool)
    ensures Filter(a + b, keep) == Filter(a, keep) + Filter(b, keep)
    decreases |a|
  {
    if a != [] {
      assert (a + b)[0] == a[0] && (a + b)[1..] == a[1..] + b;
      FilterAppend(a[1..], b, keep);
    } else {
      assert a + b == b;
    }
  }

  /** A string whose every character is kept is left as it is. */
  lemma {:induction false} FilterKeepsAll(s: string, keep: char -> bool)
    requires forall i :: 0 <= i < |s| ==> keep(s[i])
    ensures Filter(s, keep) == s
    decreases |s|
  {
    if s != [] {
      FilterKeepsAll(s[1..], keep);
    }
  }

  /** `s.replace(/\s/g, ch)`: every whitespace character replaced by `ch`. */
  function ReplaceSpaces(s: string, ch: char): (r: string)
    ensures |r| == |s|
    ensures forall i :: 0 <= i < |s| && !IsSpace(s[i]) ==> r[i] == s[i]
    ensures forall i :: 0 <= i < |s| && IsSpace(s[i]) ==> r[i] == ch
    ensures !IsSpace(ch) ==> forall i :: 0 <= i < |r| ==> !IsSpace(r[i])
  {
    seq(|s|, i requires 0 <= i < |s| => if IsSpace(s[i]) then ch else s[i])
  }

  // ---------------------------------------------------------------------
  // Tokens: s.split(/\s+/).filter(t => t.length > 0)
  // ---------------------------------------------------------------------

  /** Length of the run of non-whitespace characters that starts `s`. */
  function WordLength(s: string): (n: nat)
    requires s != [] && !IsSpace(s[0])
    ensures 1 <= n <= |s|
    ensures forall i :: 0 <= i < n ==> !IsSpace(s[i])
    ensures n < |s| ==> IsSpace(s[n])
    decreases |s|
  {
    if |s| == 1 || IsSpace(s[1]) then 1 else 1 + WordLength(s[1..])
  }

  /** The maximal runs of non-whitespace characters, in order. */
  function Tokens(s: string): (r: seq<string>)
    ensures forall k :: 0 <= k < |r| ==> r[k] != []
    ensures forall k, i :: 0 <= k < |r| && 0 <= i < |r[k]| ==> !IsSpace(r[k][i])
    decreases |s|
  {
    if s == [] then []
    else if IsSpace(s[0]) then Tokens(s[1..])
    else
      var n := WordLength(s);
      [s[..n]] + Tokens(s[n..])
  }

  /** A string has no tokens exactly when it is all whitespace. */
  lemma {:induction false} TokensEmptyIff(s: string)
    ensures Tokens(s) == [] <==> forall i :: 0 <= i < |s| ==> IsSpace(s[i])
    decreases |s|
  {
    if s != [] && IsSpace(s[0]) {
      TokensEmptyIff(s[1..]);
      assert forall i :: 1 <= i < |s| ==> s[i] == s[1..][i - 1];
    }
  }

  /** A single word is its own only token. */
  lemma TokensOfWord(w: string)
    requires w != [] && forall i :: 0 <= i < |w| ==> !IsSpace(w[i])
    ensures Tokens(w) == [w]
  {
    assert WordLength(w) == |w|;
    assert w[..|w|] == w && w[|w|..] == [];
  }

  /** A run of non-whitespace ending at whitespace or at the end of the
      string is the one `WordLength` measures. */
  lemma WordLengthIs(s: string, n: nat)
    requires 1 <= n <= |s|
    requires forall i :: 0 <= i < n ==> !IsSpace(s[i])
    requires n < |s| ==> IsSpace(s[n])
    ensures WordLength(s) == n
  {
  }

  /** Splitting at a whitespace character splits the tokens: the tokens of
      `a + [c] + b` are those of `a` followed by those of `b`. With
      `TokensOfWord` and `TokensEmptyIff` this fixes the token list. */
  lemma {:induction false} TokensSplitAtSpace(a: string, c: char, b: string)
    requires IsSpace(c)
    ensures Tokens(a + [c] + b) == Tokens(a) + Tokens(b)
    decreases |a|
  {
    var s := a + [c] + b;
    if a == [] {
      assert s[0] == c && s[1..] == b;
    } else if IsSpace(a[0]) {
      assert s[0] == a[0] && s[1..] == a[1..] + [c] + b;
      TokensSplitAtSpace(a[1..], c, b);
    } else {
      var n := WordLength(a);
      assert s[0] == a[0];
      assert forall i :: 0 <= i < n ==> s[i] == a[i];
      assert n < |s| && (n < |a| ==> s[n] == a[n]) && (n == |a| ==> s[n] == c);
      WordLengthIs(s, n);
      assert s[..n] == a[..n];
      assert s[n..] == a[n..] + [c] + b;
      TokensSplitAtSpace(a[n..], c, b);
    }
  }

  // ---------------------------------------------------------------------
  // includes, startsWith
  // ---------------------------------------------------------------------

  /** `p` occurs in `s` starting at position `i`. */
  predicate OccursAt(s: string, p: string, i: nat) {
    i + |p| <= |s| && s[i..i + |p|] == p
  }

  /** `s.includes(p)`: `p` occurs in `s` at some position. */
  function Contains(s: string, p: string): (r: bool)
    ensures r <==> exists i: nat :: OccursAt(s, p, i)
    decreases |s|
  {
    if p <= s then
      assert OccursAt(s, p, 0);
      true
    else if s == [] then
      assert forall i: nat :: !OccursAt(s, p, i);
      false
    else
      var r := Contains(s[1..], p);
      assert forall i: nat :: OccursAt(s[1..], p, i) <==> OccursAt(s, p, i + 1) by {
        forall i: nat ensures OccursAt(s[1..], p, i) <==> OccursAt(s, p, i + 1) {
          if i + |p| <= |s[1..]| {
            assert s[1..][i..i + |p|] == s[i + 1..i + 1 + |p|];
          }
        }
      }
      assert !OccursAt(s, p, 0);
      assert (exists i: nat :: OccursAt(s, p, i)) ==> r by {
        if exists i: nat :: OccursAt(s, p, i) {
          var i: nat :| OccursAt(s, p, i);
          assert OccursAt(s[1..], p, i - 1);
        }
      }
      r
  }
  /** Every string contains itself. */
  lemma ContainsSelf(w: string)
    ensures Contains(w, w)
  {
    assert OccursAt(w, w, 0);
  }

  /** What a string contains, its extension to the right contains. */
  lemma ContainsLeft(a: string, b: string, w: string)
    requires Contains(a, w)
    ensures Contains(a + b, w)
  {
    var i: nat :| OccursAt(a, w, i);
    assert (a + b)[i..i + |w|] == a[i..i + |w|];
    assert OccursAt(a + b, w, i);
  }

  /** What a string contains, its extension to the left contains. */
  lemma ContainsRight(a: string, b: string, w: string)
    requires Contains(b, w)
    ensures Contains(a + b, w)
  {
    var i: nat :| OccursAt(b, w, i);
    assert (a + b)[|a| + i..|a| + i + |w|] == b[i..i + |w|];
    assert OccursAt(a + b, w, |a| + i);
  }

  /** A string placed between two others is contained in the whole. */
  lemma ContainsBetween(a: string, w: string, b: string)
    ensures Contains(a + w + b, w)
  {
    ContainsSelf(w);
    ContainsRight(a, w, w);
    ContainsLeft(a + w, b, w);
  }


  // ---------------------------------------------------------------------
  // Generic-word deletion: s.replace(/ block| court| cell| lab| gate/g, "")
  // ---------------------------------------------------------------------

  /** The alternatives of the generic-word pattern, in order. */
  const GenericWords: seq<string> := [" block", " court", " cell", " lab", " gate"]

  /** Length of the alternative of ` block| court| cell| lab| gate` that
      matches at the start of `s`, tried in that order, or 0 if none does. */
  function GenericPrefixLength(s: string): (n: nat)
    ensures n <= |s|
    ensures n != 0 ==> s[..n] in GenericWords
    ensures n == 0 ==> forall w :: w in GenericWords ==> !(w <= s)
  {
    if " block" <= s then assert s[..6] == " block"; 6
    else if " court" <= s then assert s[..6] == " court"; 6
    else if " cell" <= s then assert s[..5] == " cell"; 5
    else if " lab" <= s then assert s[..4] == " lab"; 4
    else if " gate" <= s then assert s[..5] == " gate"; 5
    else 0
  }

  /** Global left-to-right deletion of the generic words. It is plain
      substring deletion: a generic word inside a longer word goes too. */
  function RemoveGeneric(s: string): (r: string)
    ensures |r| <= |s|
    ensures forall c :: c in r ==> c in s
    ensures NoGenericWord(s) ==> r == s
    decreases |s|
  {
    if s == [] then []
    else
      var n := GenericPrefixLength(s);
      if n != 0 then
        assert !NoGenericWord(s) by { assert s[0..] == s; }
        var r := RemoveGeneric(s[n..]);
        assert forall c :: c in s[n..] ==> c in s;
        r
      else
        assert NoGenericWord(s) ==> NoGenericWord(s[1..]) by {
          forall i | 0 <= i < |s[1..]| ensures s[1..][i..] == s[i + 1..] { }
        }
        var r := [s[0]] + RemoveGeneric(s[1..]);
        assert forall c :: c in s[1..] ==> c in s;
        r
  }

  /** No generic word starts at any position of `s`. */
  predicate NoGenericWord(s: string) {
    forall i :: 0 <= i < |s| ==> GenericPrefixLength(s[i..]) == 0
  }

  /** No generic word starts a string that does not start with a space. */
  lemma NoGenericAtNonSpace(s: string)
    requires s != [] && s[0] != ' '
    ensures GenericPrefixLength(s) == 0
  {
  }

  /** A leading word without spaces survives the deletion unchanged. */
  lemma {:induction false} RemoveGenericKeepsWord(w: string, rest: string)
    requires ' ' !in w
    ensures RemoveGeneric(w + rest) == w + RemoveGeneric(rest)
    decreases |w|
  {
    if w != [] {
      var s := w + rest;
      assert s[0] == w[0] && w[0] != ' ';
      NoGenericAtNonSpace(s);
      assert RemoveGeneric(s) == [s[0]] + RemoveGeneric(s[1..]);
      assert s[1..] == w[1..] + rest;
      assert ' ' !in w[1..];
      RemoveGenericKeepsWord(w[1..], rest);
    } else {
      assert w + rest == rest;
    }
  }

  // ---------------------------------------------------------------------
  // split(' ').pop()
  // ---------------------------------------------------------------------

  /** The last field of `s` split on the space character: the suffix after
      the last ' ', or all of `s` when it has none. */
  function LastField(s: string): (r: string)
    ensures |r| <= |s| && r == s[|s| - |r|..]
    ensures ' ' !in r
    ensures |r| < |s| ==> s[|s| - |r| - 1] == ' '
    decreases |s|
  {
    if s == [] then []
    else if s[|s| - 1] == ' ' then []
    else
      var r := LastField(s[..|s| - 1]) + [s[|s| - 1]];
      assert r == s[|s| - |r|..];
      r
  }

  /** The room-button payload `${floor} ${id}` gives back `id` as its last
      field, whatever the floor name, as long as `id` has no space. */
  lemma LastFieldAfterSpace(prefix: string, field: string)
    requires ' ' !in field
    ensures LastField(prefix + " " + field) == field
  {
    var s := prefix + " " + field;
    var r := LastField(s);
    assert s[|prefix|] == ' ';
    assert forall i :: 0 <= i < |field| ==> s[|prefix| + 1 + i] == field[i];
    assert |r| == |field|;
    assert s[|s| - |field|..] == field;
  }
}
