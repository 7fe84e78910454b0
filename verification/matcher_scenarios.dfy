/** Worked cases of the matcher on concrete queries and targets: the
    generic-word deletion, a target's tokens, an unbounded score and the
    single-token fuzzy path.
 */
module MatcherScenarios {
  import opened Optional
  import opened Text
  import opened Levenshtein
  import opened Matcher

  /** " gate" is the fifth alternative of the generic words and the only
      one that starts " gate…". */
  lemma GateIsGeneric(s: string)
    requires " gate" <= s
    ensures GenericPrefixLength(s) == 5
  {
    assert s[1] == 'g';
  }

  /** The generic-word deletion is plain substring deletion: " gate" goes
      even when it starts a longer word, so "main gateway" loses it and
      becomes "mainway". */
  lemma GenericWordInsideAWord(w: string, rest: string)
    requires ' ' !in w
    ensures RemoveGeneric(w + " gate" + rest) == w + RemoveGeneric(rest)
  {
    var gate := " gate" + rest;
    GateIsGeneric(gate);
    assert gate[5..] == rest;
    assert w + " gate" + rest == w + gate;
    RemoveGenericKeepsWord(w, gate);
  }

  lemma MainIsWord()
    ensures forall i :: 0 <= i < |"main"| ==> IsLowerAlnum("main"[i]) && !IsSpace("main"[i])
  {
  }

  lemma MainGateLower()
    ensures Lower("main gate") == "main gate"
  {
  }

  lemma MainGateJoined()
    ensures ReplaceSpaces("main gate", '_') == "main_gate"
  {
  }

  /** The generic words deleted from "main gate" leave the word "main". */
  lemma MainGateStripped()
    ensures RemoveGeneric("main gate") == "main"
  {
    var gate := " gate";
    GateIsGeneric(gate);
    assert RemoveGeneric(gate[5..]) == [];
    assert "main gate" == "main" + gate;
    RemoveGenericKeepsWord("main", gate);
  }

  lemma MainTokens()
    ensures Tokens(Filter("main", IsLowerAlnumOrSpace)) == ["main"]
  {
    MainIsWord();
    FilterKeepsAll("main", IsLowerAlnumOrSpace);
    TokensOfWord("main");
  }

  /** The tokens of the target "main gate": its words with the generic
      words deleted, which leaves "main", then the whole name joined by an
      underscore. */
  lemma MainGateTokens()
    ensures TargetTokens("main gate") == ["main", "main_gate"]
  {
    MainGateLower();
    MainGateJoined();
    MainGateStripped();
    MainTokens();
  }

  /** Without distinct query tokens the score is not bounded by one: a
      repeated query token is counted once per occurrence while the union
      counts it once. */
  lemma RepeatedTokenScoresAboveOne()
    ensures GetScore(["lab", "lab"], ["lab"]) == 2.0
  {
    assert SetOf(["lab", "lab"]) + SetOf(["lab"]) == {"lab"};
    assert CountIn(["lab", "lab"], SetOf(["lab"])) == 2;
  }

  lemma CanteensIsWord()
    ensures forall i :: 0 <= i < |"canteens"| ==> IsLowerAlnum("canteens"[i]) && !IsSpace("canteens"[i])
  {
  }

  lemma CanteensLower()
    ensures Lower("Canteens!") == "canteens!"
  {
  }

  lemma CanteensTrimmed()
    ensures Trim("canteens!") == "canteens!"
  {
    TrimNoEdgeSpace("canteens!");
  }

  /** A kept word followed by one dropped character filters to the word. */
  lemma FilterDropsLast(w: string, c: char, keep: char -> bool)
    requires forall i :: 0 <= i < |w| ==> keep(w[i])
    requires !keep(c)
    ensures Filter(w + [c], keep) == w
  {
    FilterAppend(w, [c], keep);
    FilterKeepsAll(w, keep);
  }

  lemma CanteensFiltered()
    ensures Filter("canteens!", IsLowerAlnumOrSpace) == "canteens"
  {
    CanteensIsWord();
    FilterDropsLast("canteens", '!', IsLowerAlnumOrSpace);
    assert "canteens" + ['!'] == "canteens!";
  }

  /** Normalising "Canteens!" lower-cases it and drops the punctuation,
      leaving the single token "canteens". */
  lemma CanteensQueryTokens()
    ensures QueryTokens("Canteens!") == ["canteens"]
  {
    CanteensLower();
    CanteensTrimmed();
    CanteensFiltered();
    CanteensIsWord();
    TokensOfWord("canteens");
  }

  lemma CanteenNormalized()
    ensures AlnumOnly("canteen") == "canteen"
  {
    assert Lower("canteen") == "canteen";
    assert forall i :: 0 <= i < |"canteen"| ==> IsLowerAlnum("canteen"[i]);
    FilterKeepsAll("canteen", IsLowerAlnum);
  }

  /** "canteens" is exactly one deletion away from "canteen". */
  lemma CanteensOneFromCanteen()
    ensures Lev("canteens", "canteen") == 1
  {
    assert "canteens" == "canteen" + ['s'];
    LevDropLast("canteen", 's');
    LevZeroIff("canteens", "canteen");
  }

  /** "canteens" and "canteen" have similarity 7/8, above the bar. */
  lemma CanteensCloseToCanteen()
    ensures Similarity(Lev("canteens", "canteen"), 8) == 7.0 / 8.0
    ensures CloseEnough("canteens", "canteen")
  {
    CanteenNormalized();
    CanteensOneFromCanteen();
    CloseEnoughInIntegers("canteens", "canteen");
  }

  /** A single misspelt word within the similarity bar is answered on the
      fast path with the first close target. */
  lemma MisspeltSingleWordMatches()
    ensures BestMatch("Canteens!", ["canteen", "gym"], DefaultThreshold) == Some("canteen")
  {
    CanteensQueryTokens();
    CanteensCloseToCanteen();
    FastPathTakesFirst("Canteens!", ["canteen", "gym"], DefaultThreshold, 0);
  }

  lemma CddIsWord()
    ensures forall i :: 0 <= i < |"cdd"| ==> IsLowerAlnum("cdd"[i]) && !IsSpace("cdd"[i])
  {
  }

  lemma CddQueryTokens()
    ensures QueryTokens("cdd") == ["cdd"]
  {
    CddIsWord();
    assert Lower("cdd") == "cdd";
    TrimNoEdgeSpace("cdd");
    FilterKeepsAll("cdd", IsLowerAlnumOrSpace);
    TokensOfWord("cdd");
  }

  lemma CcdNormalized()
    ensures AlnumOnly("ccd") == "ccd"
  {
    assert Lower("ccd") == "ccd";
    assert forall i :: 0 <= i < |"ccd"| ==> IsLowerAlnum("ccd"[i]);
    FilterKeepsAll("ccd", IsLowerAlnum);
  }

  lemma CdCloseToCc()
    ensures Lev("cd", "cc") <= 1
  {
    assert "cd" == "c" + ['d'] && "cc" == "c" + ['c'];
    LevReplaceLast("c", 'd', 'c');
  }

  /** "cdd" is exactly one substitution away from "ccd". */
  lemma CddOneFromCcd()
    ensures Lev("cdd", "ccd") == 1
  {
    CdCloseToCc();
    assert "cdd" == "cd" + ['d'] && "ccd" == "cc" + ['d'];
    LevAppendSame("cd", "cc", 'd');
    assert "cdd"[1] != "ccd"[1];
    LevZeroIff("cdd", "ccd");
  }

  /** "cdd" and "ccd" have similarity 2/3, above the bar. */
  lemma CddCloseToCcd()
    ensures Similarity(Lev("cdd", "ccd"), 3) == 2.0 / 3.0
    ensures CloseEnough("cdd", "ccd")
  {
    CcdNormalized();
    CddOneFromCcd();
    CloseEnoughInIntegers("cdd", "ccd");
  }

  /** A one-letter typo of a three-letter name is answered on the fast
      path: "cdd" finds "ccd", whatever targets follow it. */
  lemma SingleTypoMatches()
    ensures BestMatch("cdd", ["ccd", "cdx"], DefaultThreshold) == Some("ccd")
  {
    CddQueryTokens();
    CddCloseToCcd();
    FastPathTakesFirst("cdd", ["ccd", "cdx"], DefaultThreshold, 0);
  }
}
