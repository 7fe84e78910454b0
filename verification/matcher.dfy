/** The fuzzy location matcher `findBestMatch(query, targetList, threshold)`:
    normalise the query; for a one-word query return the first target
    within edit-distance similarity 0.6; otherwise score every target by
    token overlap plus a substring bonus, keep the earliest maximum, and
    accept it at `threshold` or, failing that, above 0.3.
 */
module Matcher {
  import opened Optional
  import opened Text
  import opened Levenshtein

  /** The default value of the `threshold` parameter. */
  const DefaultThreshold: real := 0.45

  /** The weaker acceptance band: a best score strictly above this. */
  const FallbackBand: real := 0.3

  /** Single-token path: similarity at or above this returns at once. */
  const SimilarityBar: real := 0.6

  /** Added to a target's score when the query contains it. */
  const SubstringBonus: real := 0.15

  // =====================================================================
  // Stage 1: normalisation
  // =====================================================================

  /** `query.toLowerCase().trim().replace(/[^a-z0-9\s]/g, '')`: only
      `[a-z0-9\s]` remains, and a letter or digit occurs in it exactly when
      it occurs in the lower-cased query. */
  function Sanitize(query: string): (r: string)
    ensures forall i :: 0 <= i < |r| ==> IsLowerAlnumOrSpace(r[i])
    ensures forall c :: IsLowerAlnum(c) ==> (c in r <==> c in Lower(query))
  {
    var lowered := Lower(query);
    var trimmed := Trim(lowered);
    assert forall c :: IsLowerAlnum(c) && c in lowered ==> c in trimmed by {
      forall c | IsLowerAlnum(c) && c in lowered ensures c in trimmed {
        var i :| 0 <= i < |lowered| && lowered[i] == c;
        assert !IsSpace(lowered[i]);
      }
    }
    Filter(trimmed, IsLowerAlnumOrSpace)
  }

  /** `rawQuery.split(/\s+/).filter(t => t.length > 0)` */
  function QueryTokens(query: string): seq<string> {
    Tokens(Sanitize(query))
  }

  /** The query has no tokens exactly when none of its characters is an
      ASCII letter or digit once lower-cased. */
  lemma NoTokensIffNoAlnum(query: string)
    ensures QueryTokens(query) == [] <==>
            forall i :: 0 <= i < |query| ==> !IsLowerAlnum(LowerChar(query[i]))
  {
    TokensEmptyIff(Sanitize(query));
    if forall i :: 0 <= i < |query| ==> !IsLowerAlnum(LowerChar(query[i])) {
      SanitizedAllSpace(query);
    } else {
      var i :| 0 <= i < |query| && IsLowerAlnum(LowerChar(query[i]));
      SanitizedKeepsAlnum(query, i);
    }
  }

  /** With no letter or digit, the sanitised query is all whitespace. */
  lemma SanitizedAllSpace(query: string)
    requires forall i :: 0 <= i < |query| ==> !IsLowerAlnum(LowerChar(query[i]))
    ensures forall i :: 0 <= i < |Sanitize(query)| ==> IsSpace(Sanitize(query)[i])
  {
    var lowered := Lower(query);
    var trimmed := Trim(lowered);
    var raw := Filter(trimmed, IsLowerAlnumOrSpace);
    forall i | 0 <= i < |raw| ensures IsSpace(raw[i]) {
      assert raw[i] in trimmed;
      assert raw[i] in lowered;
      assert !IsLowerAlnum(raw[i]);
    }
  }

  /** A letter or digit of the query survives sanitising. */
  lemma SanitizedKeepsAlnum(query: string, i: nat)
    requires i < |query| && IsLowerAlnum(LowerChar(query[i]))
    ensures exists k :: 0 <= k < |Sanitize(query)| && !IsSpace(Sanitize(query)[k])
  {
    var lowered := Lower(query);
    var trimmed := Trim(lowered);
    var raw := Filter(trimmed, IsLowerAlnumOrSpace);
    assert raw == Sanitize(query);
    var c := lowered[i];
    assert c == LowerChar(query[i]);
    AlnumIsNotSpace(c);
    assert c in trimmed;
    assert IsLowerAlnumOrSpace(c);
    assert c in raw;
    var k :| 0 <= k < |raw| && raw[k] == c;
    assert !IsSpace(raw[k]);
  }

  // =====================================================================
  // Ratios of naturals, exactly
  // =====================================================================

  lemma MulStrict(x: real, y: real, m: real)
    requires m > 0.0 && x > y
    ensures x * m > y * m
  {
    assert (x - y) * m > 0.0;
  }

  lemma MulMono(x: real, y: real, m: real)
    requires m > 0.0 && x <= y
    ensures x * m <= y * m
  {
    assert (y - x) * m >= 0.0;
  }

  lemma RatioTimes(d: nat, m: nat)
    requires m > 0
    ensures ((d as real) / (m as real)) * (m as real) == d as real
  {
  }

  lemma RatioNonNegative(d: nat, m: nat)
    requires m > 0
    ensures (d as real) / (m as real) >= 0.0
  {
    var q := (d as real) / (m as real);
    RatioTimes(d, m);
    if q < 0.0 { MulStrict(0.0, q, m as real); }
  }

  lemma RatioAtMostOne(d: nat, m: nat)
    requires 0 < m && d <= m
    ensures (d as real) / (m as real) <= 1.0
  {
    var q := (d as real) / (m as real);
    RatioTimes(d, m);
    if q > 1.0 { MulStrict(q, 1.0, m as real); }
  }

  lemma RatioZero(d: nat, m: nat)
    requires m > 0
    ensures (d as real) / (m as real) == 0.0 <==> d == 0
  {
    RatioTimes(d, m);
  }

  lemma RatioTwoFifths(d: nat, m: nat)
    requires m > 0
    ensures (d as real) / (m as real) <= 0.4 <==> 5 * d <= 2 * m
  {
    var q := (d as real) / (m as real);
    RatioTimes(d, m);
    if q <= 0.4 {
      MulMono(q, 0.4, m as real);
      assert (d as real) <= 0.4 * (m as real);
    } else {
      MulStrict(q, 0.4, m as real);
      assert (d as real) > 0.4 * (m as real);
    }
  }

  /** The facts about `d / m` the matcher relies on, for naturals. */
  lemma RatioFacts(d: nat, m: nat)
    requires m > 0
    ensures (d as real) / (m as real) >= 0.0
    ensures d <= m ==> (d as real) / (m as real) <= 1.0
    ensures (d as real) / (m as real) == 0.0 <==> d == 0
    ensures (d as real) / (m as real) <= 0.4 <==> 5 * d <= 2 * m
  {
    RatioNonNegative(d, m);
    if d <= m { RatioAtMostOne(d, m); }
    RatioZero(d, m);
    RatioTwoFifths(d, m);
  }

  // =====================================================================
  // Stage 2: the single-token fast path
  // =====================================================================

  /** `target.toLowerCase().replace(/[^a-z0-9]/g, '')`: exactly the
      letters and digits of the lower-cased target. */
  function AlnumOnly(target: string): (r: string)
    ensures forall i :: 0 <= i < |r| ==> IsLowerAlnum(r[i])
    ensures forall c :: c in r <==> c in Lower(target) && IsLowerAlnum(c)
  {
    Filter(Lower(target), IsLowerAlnum)
  }

  /** `1 - distance / Math.max(lenQ, lenT)`, as an exact rational. It lies
      in [0, 1] when the distance is at most the longer length and is 1
      exactly for distance 0 (`CloseEnoughInIntegers` restates the 0.6 bar
      in integers). */
  function Similarity(distance: nat, longest: nat): (r: real)
    requires longest > 0
    ensures distance <= longest ==> 0.0 <= r <= 1.0
    ensures r == 1.0 <==> distance == 0
  {
    RatioFacts(distance, longest);
    1.0 - (distance as real) / (longest as real)
  }

  /** The test the single-token path applies to one target: both sides at
      least three characters and similarity at least 0.6. */
  predicate CloseEnough(token: string, target: string) {
    var nt := AlnumOnly(target);
    |token| >= 3 && |nt| >= 3 && Similarity(Lev(token, nt), Max(|token|, |nt|)) >= SimilarityBar
  }

  /** The similarity of two strings, not both empty, lies in [0, 1] and is
      1 exactly for equal strings. */
  lemma SimilarityInUnitInterval(a: string, b: string)
    requires |a| > 0 || |b| > 0
    ensures 0.0 <= Similarity(Lev(a, b), Max(|a|, |b|)) <= 1.0
    ensures Similarity(Lev(a, b), Max(|a|, |b|)) == 1.0 <==> a == b
  {
    LevAtMostMax(a, b);
    LevZeroIff(a, b);
    RatioFacts(Lev(a, b), Max(|a|, |b|));
  }

  /** The 0.6 bar in integers: similarity >= 0.6 iff 5 d <= 2 max. */
  lemma CloseEnoughInIntegers(token: string, target: string)
    ensures CloseEnough(token, target) <==>
            var nt := AlnumOnly(target);
            |token| >= 3 && |nt| >= 3 && 5 * Lev(token, nt) <= 2 * Max(|token|, |nt|)
  {
    var nt := AlnumOnly(target);
    if |token| >= 3 && |nt| >= 3 {
      RatioFacts(Lev(token, nt), Max(|token|, |nt|));
    }
  }

  /** The target the single-token path returns: the first, in list order,
      that is close enough (Array order, not best similarity). */
  function FirstClose(token: string, targets: seq<string>): (r: Option<nat>)
    ensures r.Some? ==> r.value < |targets| && CloseEnough(token, targets[r.value])
    ensures r.Some? ==> forall j :: 0 <= j < r.value ==> !CloseEnough(token, targets[j])
    ensures r.None? <==> forall j :: 0 <= j < |targets| ==> !CloseEnough(token, targets[j])
  {
    FindIndex(targets, t => CloseEnough(token, t))
  }

  /** A close target with no close target before it is the first close
      one. */
  lemma FirstCloseAt(token: string, targets: seq<string>, k: nat)
    requires k < |targets| && CloseEnough(token, targets[k])
    requires forall j :: 0 <= j < k ==> !CloseEnough(token, targets[j])
    ensures FirstClose(token, targets) == Some(k)
  {
  }

  // =====================================================================
  // Stage 3: token-set scoring
  // =====================================================================

  function SetOf(s: seq<string>): set<string> {
    set x | x in s
  }

  predicate Distinct(s: seq<string>) {
    forall i, j :: 0 <= i < j < |s| ==> s[i] != s[j]
  }

  /** `queryTokens.filter(token => targetSet.has(token)).length`: query
      tokens found in the target set, counted with multiplicity. */
  function CountIn(q: seq<string>, t: set<string>): (r: nat)
    ensures r <= |q|
    ensures r == |set i | 0 <= i < |q| && q[i] in t|
    ensures r > 0 <==> exists i :: 0 <= i < |q| && q[i] in t
    decreases |q|
  {
    if q == [] then
      0
    else
      var init := q[..|q| - 1];
      var last := |q| - 1;
      assert forall i :: 0 <= i < |init| ==> init[i] == q[i];
      assert (set i | 0 <= i < |q| && q[i] in t)
          == (set i | 0 <= i < |init| && init[i] in t) + (if q[last] in t then {last} else {});
      CountIn(init, t) + (if q[last] in t then 1 else 0)
  }

  /** `getScore`: 0 for an empty target list, otherwise the number of query
      tokens (with multiplicity) in the target set over the size of the
      union of the two token sets. It is positive exactly when some query
      token is a target token. */
  function GetScore(q: seq<string>, t: seq<string>): (r: real)
    ensures |t| == 0 ==> r == 0.0
    ensures r >= 0.0
    ensures r > 0.0 <==> exists i :: 0 <= i < |q| && q[i] in t
  {
    if |t| == 0 then 0.0
    else
      var union := SetOf(q) + SetOf(t);
      assert t[0] in union;
      var c := CountIn(q, SetOf(t));
      assert c > 0 <==> exists i :: 0 <= i < |q| && q[i] in t by {
        assert forall x :: x in SetOf(t) <==> x in t;
      }
      RatioFacts(c, |union|);
      (c as real) / (|union| as real)
  }

  lemma SubsetCardinality(a: set<string>, b: set<string>)
    requires a <= b
    ensures |a| <= |b|
  {
    assert b == a + (b - a);
  }

  /** With distinct query tokens the count is the size of the intersection. */
  lemma {:induction false} CountInDistinct(q: seq<string>, t: set<string>)
    requires Distinct(q)
    ensures CountIn(q, t) == |SetOf(q) * t|
    decreases |q|
  {
    if q != [] {
      var init, x := q[..|q| - 1], q[|q| - 1];
      DistinctInit(q);
      CountInDistinct(init, t);
      var a, b := SetOf(init) * t, {x} * t;
      assert SetOf(q) * t == a + b;
      DisjointCardinality(a, b);
      if x in t { assert b == {x}; } else { assert b == {}; }
    } else {
      assert SetOf(q) == {};
    }
  }

  /** Dropping the last of distinct tokens keeps them distinct, and the
      last is not among the others. */
  lemma DistinctInit(q: seq<string>)
    requires Distinct(q) && q != []
    ensures Distinct(q[..|q| - 1]) && q[|q| - 1] !in SetOf(q[..|q| - 1])
    ensures SetOf(q) == SetOf(q[..|q| - 1]) + {q[|q| - 1]}
  {
    assert forall x :: x in q <==> x == q[|q| - 1] || x in q[..|q| - 1];
  }

  lemma DisjointCardinality(a: set<string>, b: set<string>)
    requires a * b == {}
    ensures |a + b| == |a| + |b|
  {
  }

  /** A score stays within [0, 1] when the query tokens are distinct (a
      repeated query token can push it above 1). */
  lemma ScoreAtMostOne(q: seq<string>, t: seq<string>)
    requires Distinct(q)
    ensures GetScore(q, t) <= 1.0
  {
    if |t| != 0 {
      var union := SetOf(q) + SetOf(t);
      CountInDistinct(q, SetOf(t));
      SubsetCardinality(SetOf(q) * SetOf(t), union);
      assert t[0] in union;
      RatioFacts(CountIn(q, SetOf(t)), |union|);
    }
  }

  /** The target's token list: lower-case, delete the generic words, keep
      `[a-z0-9\s]`, split on whitespace, then push the lower-cased target
      with every whitespace character turned into `_`. It is never empty. */
  function TargetTokens(target: string): (r: seq<string>)
    ensures |r| >= 1 && r[|r| - 1] == ReplaceSpaces(Lower(target), '_')
  {
    var normalized := Lower(target);
    Tokens(Filter(RemoveGeneric(normalized), IsLowerAlnumOrSpace)) + [ReplaceSpaces(normalized, '_')]
  }

  /** A target's score: `getScore` plus exactly 0.15 when the sanitised
      query contains the lower-cased target with its whitespace removed.
      Within [0, 1.15] for distinct query tokens. */
  function TargetScore(raw: string, qt: seq<string>, target: string): (r: real)
    ensures r >= 0.0
    ensures Distinct(qt) ==> r <= 1.0 + SubstringBonus
  {
    var score := GetScore(qt, TargetTokens(target));
    assert Distinct(qt) ==> score <= 1.0 by {
      if Distinct(qt) { ScoreAtMostOne(qt, TargetTokens(target)); }
    }
    if Contains(raw, Filter(Lower(target), IsNotSpace)) then score + SubstringBonus else score
  }

  /** The scores of all targets, in list order. */
  function Scores(raw: string, qt: seq<string>, targets: seq<string>): (r: seq<real>)
    ensures |r| == |targets|
  {
    seq(|targets|, i requires 0 <= i < |targets| => TargetScore(raw, qt, targets[i]))
  }

  /** The running maximum of the scoring loop and the position it came
      from. */
  datatype Best = Best(score: real, index: Option<nat>)

  /** The scoring loop's `maxScore`/`bestMatch` over `scores` in order,
      starting from 0 and replacing only on a strictly greater score: the
      result is the maximum (0 when no score is above 0) and the EARLIEST
      position reaching it; a position scoring 0 is never chosen. */
  function RunningMax(scores: seq<real>): (b: Best)
    ensures b.score >= 0.0
    ensures forall i :: 0 <= i < |scores| ==> scores[i] <= b.score
    ensures b.index.None? <==> b.score == 0.0
    ensures b.index.Some? ==> b.index.value < |scores| && scores[b.index.value] == b.score
    ensures b.index.Some? ==> forall j :: 0 <= j < b.index.value ==> scores[j] < b.score
    decreases |scores|
  {
    if scores == [] then Best(0.0, None)
    else
      var init := scores[..|scores| - 1];
      var prev := RunningMax(init);
      var last := scores[|scores| - 1];
      assert forall i :: 0 <= i < |init| ==> init[i] == scores[i];
      if last > prev.score then Best(last, Some(|scores| - 1)) else prev
  }

  /** The target at the best position, if any: the loop's `bestMatch`. */
  function BestTarget(b: Best, targets: seq<string>): (r: Option<string>)
    requires b.index.Some? ==> b.index.value < |targets|
    ensures r.Some? <==> b.index.Some?
    ensures r.Some? ==> r.value in targets
  {
    match b.index
    case None => None
    case Some(i) => Some(targets[i])
  }

  // =====================================================================
  // Stage 4: the two acceptance bands
  // =====================================================================

  /** `if (maxScore >= threshold) return bestMatch;
       if (maxScore > 0.3) return bestMatch; return null;` */
  function Resolve(b: Best, targets: seq<string>, threshold: real): (r: Option<string>)
    requires b.index.Some? ==> b.index.value < |targets|
    ensures (b.score >= threshold || b.score > FallbackBand) ==> r == BestTarget(b, targets)
    ensures !(b.score >= threshold || b.score > FallbackBand) ==> r.None?
    ensures r.Some? ==> r.value in targets
  {
    if b.score >= threshold then BestTarget(b, targets)
    else if b.score > FallbackBand then BestTarget(b, targets)
    else None
  }

  /** `findBestMatch`, as a value: no tokens gives no match; a one-token
      query takes the first close-enough target; otherwise (and when no
      target is close enough) the scoring result after the two bands. The
      result is always one of the targets. */
  function BestMatch(query: string, targets: seq<string>, threshold: real): (r: Option<string>)
    ensures r.Some? ==> r.value in targets
  {
    var raw := Sanitize(query);
    var qt := Tokens(raw);
    if qt == [] then None
    else
      var fast := if |qt| == 1 then FastHit(qt[0], targets) else None;
      if fast.Some? then fast
      else
        var best := RunningMax(Scores(raw, qt, targets));
        Resolve(best, targets, threshold)
  }

  /** The target the single-token path returns: the first close-enough
      one, or nothing when no target is close enough. */
  function FastHit(token: string, targets: seq<string>): (r: Option<string>)
    ensures r.Some? ==> r.value in targets && CloseEnough(token, r.value)
    ensures r.None? <==> forall j :: 0 <= j < |targets| ==> !CloseEnough(token, targets[j])
  {
    match FirstClose(token, targets)
    case Some(i) => Some(targets[i])
    case None => None
  }

  /** The single-token loop of `findBestMatch`: the first target, in list
      order, whose similarity to the token reaches 0.6, computed with the
      Levenshtein table; the early `return` of the source is the `return`
      inside the loop. */
  method FastPath(singleQueryToken: string, targetList: seq<string>) returns (hit: Option<string>)
    ensures hit == FastHit(singleQueryToken, targetList)
  {
    var k := 0;
    while k < |targetList|
      invariant 0 <= k <= |targetList|
      invariant forall j :: 0 <= j < k ==> !CloseEnough(singleQueryToken, targetList[j])
    {
      var target := targetList[k];
      var normalizedTarget := AlnumOnly(target);
      if |singleQueryToken| >= 3 && |normalizedTarget| >= 3 {
        var distance := EditDistance(singleQueryToken, normalizedTarget);
        var longest := Max(|singleQueryToken|, |normalizedTarget|);
        var similarity := Similarity(distance, longest);
        assert CloseEnough(singleQueryToken, target) <==> similarity >= SimilarityBar;
        if similarity >= SimilarityBar {
          FirstCloseAt(singleQueryToken, targetList, k);
          return Some(target);
        }
      }
      k := k + 1;
    }
    assert FirstClose(singleQueryToken, targetList) == None;
    return None;
  }

  /** The scoring loop of `findBestMatch`: `maxScore` and `bestMatch` after
      scanning every target in order. */
  method ScoreTargets(rawQuery: string, queryTokens: seq<string>, targetList: seq<string>)
    returns (maxScore: real, bestMatch: Option<string>)
    ensures maxScore == RunningMax(Scores(rawQuery, queryTokens, targetList)).score
    ensures bestMatch == BestTarget(RunningMax(Scores(rawQuery, queryTokens, targetList)), targetList)
  {
    ghost var scores := Scores(rawQuery, queryTokens, targetList);
    ghost var best := Best(0.0, None);
    maxScore, bestMatch := 0.0, None;
    var k := 0;
    assert scores[..0] == [];
    while k < |targetList|
      invariant 0 <= k <= |targetList|
      invariant best == RunningMax(scores[..k])
      invariant maxScore == best.score
      invariant best.index.None? ==> bestMatch == None
      invariant best.index.Some? ==> best.index.value < k && bestMatch == Some(targetList[best.index.value])
    {
      var target := targetList[k];
      var score := ScoreTarget(rawQuery, queryTokens, target);
      RunningMaxStep(scores, k);
      if score > maxScore {
        maxScore := score;
        bestMatch := Some(target);
        best := Best(score, Some(k));
      }
      k := k + 1;
    }
    assert scores[..k] == scores;
  }

  /** One step of the running maximum: the next score replaces the best
      only when it is strictly greater. */
  lemma RunningMaxStep(scores: seq<real>, k: nat)
    requires k < |scores|
    ensures RunningMax(scores[..k + 1])
         == (if scores[k] > RunningMax(scores[..k]).score then Best(scores[k], Some(k))
             else RunningMax(scores[..k]))
  {
    assert scores[..k + 1][..k] == scores[..k];
  }

  /** The body of the scoring loop for one target: the token-set score
      against the target's tokens, plus the bonus when the sanitised query
      contains the target with its whitespace removed. */
  method ScoreTarget(rawQuery: string, queryTokens: seq<string>, target: string) returns (score: real)
    ensures score == TargetScore(rawQuery, queryTokens, target)
  {
    var normalizedTarget := Lower(target);
    var targetNameTokens := TargetTokens(target);
    var isSubstringMatch := Contains(rawQuery, Filter(normalizedTarget, IsNotSpace));
    score := GetScore(queryTokens, targetNameTokens);
    if isSubstringMatch {
      score := score + SubstringBonus;
    }
  }

  /** The source's `findBestMatch`. */
  method FindBestMatch(query: string, targetList: seq<string>, threshold: real) returns (r: Option<string>)
    ensures r == BestMatch(query, targetList, threshold)
  {
    var rawQuery := Sanitize(query);
    var queryTokens := Tokens(rawQuery);
    if |queryTokens| == 0 {
      return None;
    }
    if |queryTokens| == 1 {
      var hit := FastPath(queryTokens[0], targetList);
      if hit.Some? {
        return hit;
      }
    }
    var maxScore, bestMatch := ScoreTargets(rawQuery, queryTokens, targetList);
    if maxScore >= threshold {
      return bestMatch;
    }
    if maxScore > FallbackBand {
      return bestMatch;
    }
    return None;
  }

  // =====================================================================
  // Properties of the whole matcher
  // =====================================================================

  /** A query with no ASCII letter or digit matches nothing. */
  lemma NoAlnumNoMatch(query: string, targets: seq<string>, threshold: real)
    requires forall i :: 0 <= i < |query| ==> !IsLowerAlnum(LowerChar(query[i]))
    ensures BestMatch(query, targets, threshold) == None
  {
    NoTokensIffNoAlnum(query);
  }

  /** A one-token query returns the first close-enough target, whatever
      the targets after it and however close they are. */
  lemma FastPathTakesFirst(query: string, targets: seq<string>, threshold: real, k: nat)
    requires |QueryTokens(query)| == 1
    requires k < |targets| && CloseEnough(QueryTokens(query)[0], targets[k])
    requires forall j :: 0 <= j < k ==> !CloseEnough(QueryTokens(query)[0], targets[j])
    ensures BestMatch(query, targets, threshold) == Some(targets[k])
  {
    FirstCloseAt(QueryTokens(query)[0], targets, k);
  }

  /** When no target is close enough, a one-token query is not answered
      with no-match at once: it falls through to the scoring stage. */
  lemma FastPathFallsThrough(query: string, targets: seq<string>, threshold: real)
    requires |QueryTokens(query)| == 1
    requires forall j :: 0 <= j < |targets| ==> !CloseEnough(QueryTokens(query)[0], targets[j])
    ensures BestMatch(query, targets, threshold)
         == Resolve(RunningMax(Scores(Sanitize(query), QueryTokens(query), targets)), targets, threshold)
  {
  }

  /** The scoring stage answers exactly when the best score is positive and
      reaches `threshold` or exceeds 0.3, and then answers the earliest
      target with the maximum score, which is above 0. */
  lemma ScoringBands(scores: seq<real>, targets: seq<string>, threshold: real)
    requires |scores| == |targets|
    ensures var b := RunningMax(scores);
            Resolve(b, targets, threshold).Some? <==> b.score > 0.0 && (b.score >= threshold || b.score > FallbackBand)
    ensures var b := RunningMax(scores);
            Resolve(b, targets, threshold).Some? ==>
              exists i :: 0 <= i < |targets| && Resolve(b, targets, threshold) == Some(targets[i])
                && scores[i] == b.score > 0.0
                && (forall j :: 0 <= j < |targets| ==> scores[j] <= b.score)
                && (forall j :: 0 <= j < i ==> scores[j] < b.score)
  {
    var b := RunningMax(scores);
    if b.index.Some? {
      var i := b.index.value;
      assert BestTarget(b, targets) == Some(targets[i]);
    }
  }

  /** With a threshold above 0.3 (the default 0.45 is) the first band adds
      nothing: the scoring stage answers exactly when the best score is
      above 0.3. */
  lemma PrimaryThresholdRedundant(scores: seq<real>, targets: seq<string>, threshold: real)
    requires |scores| == |targets| && threshold > FallbackBand
    ensures var b := RunningMax(scores);
            Resolve(b, targets, threshold).Some? <==> b.score > FallbackBand
  {
  }

  /** The empty target "" scores exactly the substring bonus. */
  lemma EmptyTargetScore(raw: string, qt: seq<string>)
    requires forall k :: 0 <= k < |qt| ==> qt[k] != []
    ensures TargetScore(raw, qt, "") == SubstringBonus
  {
    assert Lower("") == "";
    assert TargetTokens("") == [""];
    assert forall i :: 0 <= i < |qt| ==> qt[i] !in [""];
    assert Contains(raw, "") by { assert OccursAt(raw, "", 0); }
  }

  /** With a threshold above 0.15 the matcher never answers the empty
      string, so the handler's truthiness test on the answer only ever sees
      no-match as false. */
  lemma NeverEmptyMatch(query: string, targets: seq<string>, threshold: real)
    requires threshold > SubstringBonus
    ensures BestMatch(query, targets, threshold) != Some("")
  {
    var raw := Sanitize(query);
    var qt := Tokens(raw);
    if qt != [] {
      var fast := if |qt| == 1 then FirstClose(qt[0], targets) else None;
      if fast.Some? {
        assert |AlnumOnly(targets[fast.value])| >= 3;
        assert targets[fast.value] != "";
      } else {
        ScoringNeverEmpty(raw, qt, targets, threshold);
      }
    }
  }

  /** The scoring stage never answers "": it scores 0.15, below both
      bands. */
  lemma ScoringNeverEmpty(raw: string, qt: seq<string>, targets: seq<string>, threshold: real)
    requires threshold > SubstringBonus
    requires forall k :: 0 <= k < |qt| ==> qt[k] != []
    ensures Resolve(RunningMax(Scores(raw, qt, targets)), targets, threshold) != Some("")
  {
    var scores := Scores(raw, qt, targets);
    var b := RunningMax(scores);
    if b.index.Some? && targets[b.index.value] == "" {
      EmptyTargetScore(raw, qt);
      assert scores[b.index.value] == SubstringBonus;
    }
  }

}
