/** app/ai/focused_tool_result.py: how well a passage matches an objective, and which of the
    ranked passages are worth returning beside each other. */
module FocusedScore {
  import opened FiniteSets

  // ---------------------------------------------------------------- the longest run

  /** `length` terms from `start` on stand in `tokens` from `origin` on. */
  predicate Matches(tokens: seq<string>, origin: nat, terms: seq<string>, start: nat, length: nat) {
    && start + length <= |terms| && origin + length <= |tokens|
    && terms[start..start + length] == tokens[origin..origin + length]
  }

  /** Some contiguous slice of `terms` of that length occurs in `tokens`. */
  ghost predicate HasRun(tokens: seq<string>, terms: seq<string>, length: nat) {
    exists start: nat, origin: nat :: Matches(tokens, origin, terms, start, length)
  }

  /** `best` is the greatest length of a slice of `terms` that occurs in `tokens`. */
  ghost predicate IsLongestRun(tokens: seq<string>, terms: seq<string>, best: nat) {
    && best <= |terms| && HasRun(tokens, terms, best)
    && forall length: nat :: HasRun(tokens, terms, length) ==> length <= best
  }

  lemma LongestRunIsUnique(tokens: seq<string>, terms: seq<string>, a: nat, b: nat)
    requires IsLongestRun(tokens, terms, a) && IsLongestRun(tokens, terms, b)
    ensures a == b
  {
  }

  /** A run cut short is a run. */
  lemma ShorterMatch(tokens: seq<string>, origin: nat, terms: seq<string>, start: nat, length: nat, less: nat)
    requires Matches(tokens, origin, terms, start, length) && less <= length
    ensures Matches(tokens, origin, terms, start, less)
  {
    assert terms[start..start + less] == terms[start..start + length][..less];
    assert tokens[origin..origin + less] == tokens[origin..origin + length][..less];
  }

  /** Every length up to the longest has a run, and no other. */
  lemma RunsUpToTheLongest(tokens: seq<string>, terms: seq<string>, best: nat, length: nat)
    requires IsLongestRun(tokens, terms, best)
    ensures HasRun(tokens, terms, length) <==> length <= best
  {
    if length <= best {
      var start: nat, origin: nat :| Matches(tokens, origin, terms, start, best);
      ShorterMatch(tokens, origin, terms, start, best, length);
    }
  }

  lemma LongerMatch(tokens: seq<string>, origin: nat, terms: seq<string>, start: nat, length: nat)
    requires Matches(tokens, origin, terms, start, length)
    requires start + length < |terms| && origin + length < |tokens| && tokens[origin + length] == terms[start + length]
    ensures Matches(tokens, origin, terms, start, length + 1)
  {
    assert terms[start..start + length + 1] == terms[start..start + length] + [terms[start + length]];
    assert tokens[origin..origin + length + 1] == tokens[origin..origin + length] + [tokens[origin + length]];
  }

  lemma MatchedToken(tokens: seq<string>, origin: nat, terms: seq<string>, start: nat, length: nat, k: nat)
    requires Matches(tokens, origin, terms, start, length) && k < length
    ensures tokens[origin + k] == terms[start + k]
  {
    assert terms[start..start + length][k] == terms[start + k];
    assert tokens[origin..origin + length][k] == tokens[origin + k];
  }

  /** Where each token stands, in order. */
  predicate IsPositions(positions: map<string, seq<nat>>, tokens: seq<string>, n: nat)
    requires n <= |tokens|
  {
    && (forall t :: t in positions ==>
          forall k :: 0 <= k < |positions[t]| ==> positions[t][k] < n && tokens[positions[t][k]] == t)
    && (forall i :: 0 <= i < n ==> tokens[i] in positions && i in positions[tokens[i]])
  }

  method IndexPositions(tokens: seq<string>) returns (positions: map<string, seq<nat>>)
    ensures IsPositions(positions, tokens, |tokens|)
  {
    positions := map[];
    for index := 0 to |tokens|
      invariant IsPositions(positions, tokens, index)
    {
      var token := tokens[index];
      var before := if token in positions then positions[token] else [];
      positions := positions[token := before + [index]];
    }
  }

  /** How far the match from one pair of positions goes. */
  method MatchLength(tokens: seq<string>, origin: nat, terms: seq<string>, start: nat) returns (length: nat)
    requires origin < |tokens| && start < |terms|
    ensures Matches(tokens, origin, terms, start, length)
    ensures forall longer: nat :: Matches(tokens, origin, terms, start, longer) ==> longer <= length
  {
    length := 0;
    while start + length < |terms| && origin + length < |tokens| && tokens[origin + length] == terms[start + length]
      invariant Matches(tokens, origin, terms, start, length)
      decreases |terms| - length
    {
      LongerMatch(tokens, origin, terms, start, length);
      length := length + 1;
    }
    forall longer: nat | Matches(tokens, origin, terms, start, longer)
      ensures longer <= length
    {
      if longer > length {
        MatchedToken(tokens, origin, terms, start, longer, length);
      }
    }
  }

  /** `best` covers every match that starts before the given term. */
  ghost predicate Covers(best: nat, tokens: seq<string>, terms: seq<string>, before: nat) {
    forall start: nat, origin: nat, length: nat ::
      start < before && Matches(tokens, origin, terms, start, length) ==> length <= best
  }

  /** The position index and the early exit change nothing: the result is the longest run. */
  method LongestRun(tokens: seq<string>, terms: seq<string>) returns (best: nat)
    ensures IsLongestRun(tokens, terms, best)
  {
    hide Matches;
    best := 0;
    NoMatch(tokens, terms);
    var positions := IndexPositions(tokens);
    for start := 0 to |terms|
      invariant best <= |terms| && HasRun(tokens, terms, best)
      invariant Covers(best, tokens, terms, start)
    {
      var origins := if terms[start] in positions then positions[terms[start]] else [];
      for i := 0 to |origins|
        invariant best <= |terms| && HasRun(tokens, terms, best)
        invariant Covers(best, tokens, terms, start)
        invariant forall k, length: nat :: 0 <= k < i && Matches(tokens, origins[k], terms, start, length) ==>
          length <= best
      {
        var length := MatchLength(tokens, origins[i], terms, start);
        MatchFits(tokens, origins[i], terms, start, length);
        if length > best {
          best := length;
        }
      }
      CoversNext(best, tokens, terms, start, origins, positions);
      if best == |terms| {
        RunsFit(tokens, terms);
        return;
      }
    }
    RunsFit(tokens, terms);
  }

  lemma NoMatch(tokens: seq<string>, terms: seq<string>)
    ensures HasRun(tokens, terms, 0)
  {
    assert Matches(tokens, 0, terms, 0, 0);
  }

  lemma MatchFits(tokens: seq<string>, origin: nat, terms: seq<string>, start: nat, length: nat)
    requires Matches(tokens, origin, terms, start, length)
    ensures start + length <= |terms| && HasRun(tokens, terms, length)
  {
  }

  /** A run is no longer than the terms, and one that starts past them is empty. */
  lemma RunsFit(tokens: seq<string>, terms: seq<string>)
    ensures forall start: nat, origin: nat, length: nat :: Matches(tokens, origin, terms, start, length) ==>
      length <= |terms| && (start >= |terms| ==> length == 0)
  {
  }

  lemma CoversNext(best: nat, tokens: seq<string>, terms: seq<string>, start: nat, origins: seq<nat>,
                   positions: map<string, seq<nat>>)
    requires start < |terms| && IsPositions(positions, tokens, |tokens|)
    requires origins == if terms[start] in positions then positions[terms[start]] else []
    requires Covers(best, tokens, terms, start)
    requires forall k, length: nat :: 0 <= k < |origins| && Matches(tokens, origins[k], terms, start, length) ==>
      length <= best
    ensures Covers(best, tokens, terms, start + 1)
  {
    forall s: nat, origin: nat, length: nat | s < start + 1 && Matches(tokens, origin, terms, s, length)
      ensures length <= best
    {
      if s == start && length > 0 {
        MatchedToken(tokens, origin, terms, start, length, 0);
        assert origin in positions[tokens[origin]];
        var k :| 0 <= k < |origins| && origins[k] == origin;
      }
    }
  }

  // ---------------------------------------------------------------- the score

  function Elements(s: seq<string>): set<string> {
    set i | 0 <= i < |s| :: s[i]
  }

  /** Coverage of the terms, lifted by their longest run: `0.7 * coverage + 0.3 * run`, over the
      reals. */
  ghost predicate IsScore(score: real, tokens: seq<string>, terms: seq<string>, best: nat) {
    var covered, wanted := Elements(terms) * Elements(tokens), Elements(terms);
    if covered == {} then score == 0.0
    else
      && IsLongestRun(tokens, terms, best) && wanted != {} && terms != []
      && score == 0.7 * (|covered| as real / |wanted| as real) + 0.3 * (best as real / |terms| as real)
  }

  method Score(tokens: seq<string>, terms: seq<string>) returns (score: real)
    ensures exists best :: IsScore(score, tokens, terms, best)
    ensures 0.0 <= score <= 1.0
    ensures score > 0.0 <==> Elements(terms) * Elements(tokens) != {}
    ensures score == 1.0 <==> terms != [] && HasRun(tokens, terms, |terms|)
  {
    hide HasRun, Matches;
    if terms == [] || tokens == [] {
      assert Elements(terms) * Elements(tokens) == {};
      NothingRuns(tokens, terms);
      assert IsScore(0.0, tokens, terms, 0);
      return 0.0;
    }
    var present, wanted := Elements(tokens), Elements(terms);
    var covered := wanted * present;
    assert terms[0] in wanted;
    if covered == {} {
      NoTermRuns(tokens, terms);
      assert IsScore(0.0, tokens, terms, 0);
      return 0.0;
    }
    SubsetSize(covered, wanted);
    var run := LongestRun(tokens, terms);
    if HasRun(tokens, terms, |terms|) {
      FullRunCovers(tokens, terms);
      assert covered == wanted;
    }
    var coverage := |covered| as real / |wanted| as real;
    var share := run as real / |terms| as real;
    Ratio(|covered|, |wanted|);
    Ratio(run, |terms|);
    score := 0.7 * coverage + 0.3 * share;
    assert IsScore(score, tokens, terms, run);
  }

  lemma Ratio(part: nat, whole: nat)
    requires part <= whole && whole > 0
    ensures var r := part as real / whole as real;
      0.0 <= r <= 1.0 && (r > 0.0 <==> part > 0) && (r == 1.0 <==> part == whole)
  {
    var r := part as real / whole as real;
    assert r * whole as real == part as real;
  }

  lemma NothingRuns(tokens: seq<string>, terms: seq<string>)
    requires terms == [] || tokens == []
    ensures terms != [] ==> !HasRun(tokens, terms, |terms|)
  {
  }

  lemma NoTermRuns(tokens: seq<string>, terms: seq<string>)
    requires terms != [] && Elements(terms) * Elements(tokens) == {}
    ensures !HasRun(tokens, terms, |terms|)
  {
    forall start: nat, origin: nat
      ensures !Matches(tokens, origin, terms, start, |terms|)
    {
      if Matches(tokens, origin, terms, start, |terms|) {
        FullMatchShares(tokens, origin, terms, start);
      }
    }
  }

  lemma FullMatchShares(tokens: seq<string>, origin: nat, terms: seq<string>, start: nat)
    requires terms != [] && Matches(tokens, origin, terms, start, |terms|)
    ensures Elements(terms) * Elements(tokens) != {}
  {
    MatchedToken(tokens, origin, terms, start, |terms|, 0);
    assert terms[0] in Elements(terms) && tokens[origin] in Elements(tokens);
    assert terms[0] in Elements(terms) * Elements(tokens);
  }

  lemma FullRunCovers(tokens: seq<string>, terms: seq<string>)
    requires HasRun(tokens, terms, |terms|)
    ensures Elements(terms) <= Elements(tokens)
  {
    var start: nat, origin: nat :| Matches(tokens, origin, terms, start, |terms|);
    forall i | 0 <= i < |terms|
      ensures terms[i] in Elements(tokens)
    {
      MatchedToken(tokens, origin, terms, start, |terms|, i);
    }
  }

  // ---------------------------------------------------------------- distinct passages

  /** What two passages are compared by: the claims they make and their words. */
  datatype Passage = Passage(claims: seq<string>, tokens: seq<string>)

  /** The share of common words is at least nine tenths of the shorter passage's. */
  predicate NearDuplicate(a: Passage, b: Passage) {
    var left, right := Elements(a.tokens), Elements(b.tokens);
    var smaller := if |left| <= |right| then |left| else |right|;
    a.claims == b.claims && smaller > 0 && 10 * |left * right| >= 9 * smaller
  }

  lemma NearDuplicateIsSymmetric(a: Passage, b: Passage)
    ensures NearDuplicate(a, b) <==> NearDuplicate(b, a)
  {
    assert Elements(a.tokens) * Elements(b.tokens) == Elements(b.tokens) * Elements(a.tokens);
  }

  /** Repeating each other takes the same claims in the same order, words on both sides, and that the
      common ones are nine tenths of one side's: so a passage repeats itself, and never one of
      other claims, however alike their words. */
  lemma NearDuplicateMeans(a: Passage, b: Passage)
    ensures NearDuplicate(a, b) <==>
      && a.claims == b.claims && a.tokens != [] && b.tokens != []
      && var common := |Elements(a.tokens) * Elements(b.tokens)| as real;
         common >= 0.9 * |Elements(a.tokens)| as real || common >= 0.9 * |Elements(b.tokens)| as real
    ensures NearDuplicate(a, a) <==> a.tokens != []
  {
    NoElements(a.tokens);
    NoElements(b.tokens);
    assert Elements(a.tokens) * Elements(a.tokens) == Elements(a.tokens);
  }

  lemma NoElements(tokens: seq<string>)
    ensures Elements(tokens) == {} <==> tokens == []
    ensures |Elements(tokens)| == 0 <==> tokens == []
  {
    if tokens != [] {
      assert tokens[0] in Elements(tokens);
    }
  }

  /** Increasing positions of the kept passages among the ranked ones. */
  predicate IsSelection(positions: seq<nat>, n: nat) {
    && (forall k :: 0 <= k < |positions| ==> positions[k] < n)
    && (forall j, k :: 0 <= j < k < |positions| ==> positions[j] < positions[k])
  }

  predicate RepeatsEarlier(ranked: seq<Passage>, positions: seq<nat>, i: nat)
    requires i < |ranked| && forall k :: 0 <= k < |positions| ==> positions[k] < |ranked|
  {
    exists k :: 0 <= k < |positions| && positions[k] < i && NearDuplicate(ranked[i], ranked[positions[k]])
  }

  /** The first `n` ranked passages, taken greedily: in rank order, no two near-duplicates, and
      one is left out only when it repeats a better one that was taken. */
  ghost predicate IsGreedy(ranked: seq<Passage>, selected: seq<Passage>, positions: seq<nat>, n: nat)
    requires n <= |ranked|
  {
    && IsSelection(positions, n) && |selected| == |positions|
    && (forall k :: 0 <= k < |selected| ==> selected[k] == ranked[positions[k]])
    && (forall j, k :: 0 <= j < k < |selected| ==> !NearDuplicate(selected[k], selected[j]))
    && (forall j: nat :: j < n && j !in positions ==> RepeatsEarlier(ranked, positions, j))
  }

  predicate RepeatsOne(candidate: Passage, selected: seq<Passage>) {
    exists k :: 0 <= k < |selected| && NearDuplicate(candidate, selected[k])
  }

  lemma SkipRepeat(ranked: seq<Passage>, selected: seq<Passage>, positions: seq<nat>, i: nat)
    requires i < |ranked| && IsGreedy(ranked, selected, positions, i) && RepeatsOne(ranked[i], selected)
    ensures IsGreedy(ranked, selected, positions, i + 1)
  {
    hide NearDuplicate;
    var k :| 0 <= k < |selected| && NearDuplicate(ranked[i], selected[k]);
    assert RepeatsEarlier(ranked, positions, i);
  }

  lemma TakeNext(ranked: seq<Passage>, selected: seq<Passage>, positions: seq<nat>, i: nat)
    requires i < |ranked| && IsGreedy(ranked, selected, positions, i) && !RepeatsOne(ranked[i], selected)
    ensures IsGreedy(ranked, selected + [ranked[i]], positions + [i], i + 1)
  {
    hide NearDuplicate;
    forall j: nat | j < i && j !in positions + [i]
      ensures RepeatsEarlier(ranked, positions + [i], j)
    {
      assert j !in positions;
      var k :| 0 <= k < |positions| && positions[k] < j && NearDuplicate(ranked[j], ranked[positions[k]]);
      assert (positions + [i])[k] == positions[k];
    }
  }

  /** The kept passages are the best ones that do not repeat each other: taken greedily from all
      ranked ones, or from those up to the one that fills the limit. */
  method TakeDistinct(ranked: seq<Passage>, limit: nat) returns (selected: seq<Passage>, ghost positions: seq<nat>)
    requires limit >= 1
    ensures |selected| <= limit
    ensures exists n ::
      && 0 <= n <= |ranked| && IsGreedy(ranked, selected, positions, n)
      && (n == |ranked| || (|selected| == limit && positions[limit - 1] == n - 1))
  {
    hide NearDuplicate, RepeatsOne;
    selected, positions := [], [];
    for i := 0 to |ranked|
      invariant |selected| < limit && IsGreedy(ranked, selected, positions, i)
    {
      var repeats := RepeatsOneOf(ranked[i], selected);
      if repeats {
        SkipRepeat(ranked, selected, positions, i);
        continue;
      }
      TakeNext(ranked, selected, positions, i);
      hide IsGreedy;
      selected := selected + [ranked[i]];
      positions := positions + [i];
      if |selected| >= limit {
        LastTaken(ranked, selected, positions, i);
        return;
      }
    }
  }

  lemma LastTaken(ranked: seq<Passage>, selected: seq<Passage>, positions: seq<nat>, i: nat)
    requires i < |ranked| && IsGreedy(ranked, selected, positions, i + 1)
    requires positions != [] && positions[|positions| - 1] == i
    ensures |selected| == |positions| && positions[|selected| - 1] == i
  {
  }

  method RepeatsOneOf(candidate: Passage, selected: seq<Passage>) returns (repeats: bool)
    ensures repeats <==> RepeatsOne(candidate, selected)
  {
    hide NearDuplicate;
    for k := 0 to |selected|
      invariant forall j :: 0 <= j < k ==> !NearDuplicate(candidate, selected[j])
    {
      if NearDuplicate(candidate, selected[k]) {
        return true;
      }
    }
    return false;
  }
}
