/** Ranking the candidates of the slash-command palette against what the user typed. */
module Palette {
  import opened Common
  import opened StableSort
  import opened TextOrder

  datatype Candidate = Candidate(name: string, description: string)

  datatype Scored = Scored(candidate: Candidate, score: int, hits: seq<nat>)

  /** Lower case of one character; strings are lowered character by character. */
  type Lowering = char -> char

  const CONSECUTIVE_BONUS := 10
  const BOUNDARY_BONUS := 5
  const START_PENALTY := 2

  predicate IsBoundary(c: char) {
    c == '/' || c == '-' || c == '_' || c == '.'
  }

  function LowerText(lower: Lowering, s: string): string {
    seq(|s|, i requires 0 <= i < |s| => lower(s[i]))
  }

  // ------------------------------------------------------------ matching

  /** `hits` spells a beginning of `wanted` inside `text`, from left to right. */
  ghost predicate Begins(wanted: string, text: string, hits: seq<nat>) {
    && |hits| <= |wanted|
    && (forall k :: 0 <= k < |hits| ==> hits[k] < |text| && text[hits[k]] == wanted[k])
    && (forall j, k :: 0 <= j < k < |hits| ==> hits[j] < hits[k])
  }

  ghost predicate Embeds(wanted: string, text: string, hits: seq<nat>) {
    Begins(wanted, text, hits) && |hits| == |wanted|
  }

  ghost predicate IsSubsequence(wanted: string, text: string) {
    exists hits :: Embeds(wanted, text, hits)
  }

  /** The positions a left-to-right scan of `text` has used for `wanted`. */
  ghost function Greedy(wanted: string, text: string): seq<nat> {
    if text == "" then []
    else
      var n := |text| - 1;
      var before := Greedy(wanted, text[..n]);
      if |before| < |wanted| && text[n] == wanted[|before|] then before + [n] else before
  }

  /** What `match` answers. */
  ghost function Hits(lower: Lowering, query: string, target: string): Option<seq<nat>> {
    var wanted := LowerText(lower, query);
    var hits := Greedy(wanted, LowerText(lower, target));
    if |hits| == |wanted| then Some(hits) else None
  }

  lemma {:induction false} GreedySpells(wanted: string, text: string)
    ensures Begins(wanted, text, Greedy(wanted, text))
  {
    if text != "" {
      GreedySpells(wanted, text[..|text| - 1]);
    }
  }

  /** One more character is used if it is the one wanted next. */
  lemma GreedyLast(wanted: string, text: string)
    requires text != ""
    ensures var n := |text| - 1;
            var before := Greedy(wanted, text[..n]);
            Greedy(wanted, text)
            == if |before| < |wanted| && text[n] == wanted[|before|] then before + [n] else before
  {
  }

  /** A spelling without its hit on the last character is one in the text before it. */
  lemma BeginsBefore(wanted: string, text: string, hits: seq<nat>)
    requires Begins(wanted, text, hits) && hits != []
    ensures text != "" && |hits| <= |wanted| && hits[|hits| - 1] <= |text| - 1
    ensures hits[|hits| - 1] == |text| - 1 ==>
              && text[|text| - 1] == wanted[|hits| - 1]
              && Begins(wanted, text[..|text| - 1], hits[..|hits| - 1])
    ensures hits[|hits| - 1] < |text| - 1 ==> Begins(wanted, text[..|text| - 1], hits)
  {
  }

  /** However a beginning of `wanted` is spelled in `text`, the scan gets at least as far. */
  lemma {:induction false} GreedyIsFar(wanted: string, text: string, other: seq<nat>)
    requires Begins(wanted, text, other)
    ensures |other| <= |Greedy(wanted, text)|
  {
    if other != [] {
      BeginsBefore(wanted, text, other);
      var n, k := |text| - 1, |other| - 1;
      GreedyIsFar(wanted, text[..n], if other[k] == n then other[..k] else other);
      GreedyLast(wanted, text);
      hide Greedy, Begins;
    }
  }

  /** And it gets there at least as early. */
  lemma {:induction false} GreedyIsEarly(wanted: string, text: string, other: seq<nat>, k: nat)
    requires Begins(wanted, text, other) && k < |other|
    ensures k < |Greedy(wanted, text)| && Greedy(wanted, text)[k] <= other[k]
  {
    BeginsBefore(wanted, text, other);
    GreedyIsFar(wanted, text, other);
    GreedySpells(wanted, text);
    var n, last := |text| - 1, |other| - 1;
    assert Greedy(wanted, text)[k] <= n;
    GreedyLast(wanted, text);
    if other[last] < n {
      GreedyIsEarly(wanted, text[..n], other, k);
    } else if k < last {
      GreedyIsEarly(wanted, text[..n], other[..last], k);
    }
    hide Greedy, Begins;
  }

  /** Scanning for the beginning of a longer query uses the beginning of its positions. */
  lemma {:induction false} GreedyOfPrefix(wanted: string, n: nat, text: string)
    requires n <= |wanted|
    ensures var all := Greedy(wanted, text);
            Greedy(wanted[..n], text) == if |all| <= n then all else all[..n]
  {
    if text != "" {
      GreedyOfPrefix(wanted, n, text[..|text| - 1]);
    }
  }

  /** `match` finds the leftmost embedding, and finds one exactly when the query is a subsequence. */
  lemma HitsAreLeftmost(lower: Lowering, query: string, target: string)
    ensures var wanted, text := LowerText(lower, query), LowerText(lower, target);
            var r := Hits(lower, query, target);
            && (r.Some? <==> IsSubsequence(wanted, text))
            && (r.Some? ==> Embeds(wanted, text, r.value))
            && (r.Some? ==>
                  forall other, k :: Embeds(wanted, text, other) && 0 <= k < |other| ==> r.value[k] <= other[k])
  {
    var wanted, text := LowerText(lower, query), LowerText(lower, target);
    GreedySpells(wanted, text);
    var hits := Greedy(wanted, text);
    if |hits| == |wanted| {
      assert Embeds(wanted, text, hits);
    }
    forall other | Embeds(wanted, text, other) ensures |hits| == |wanted| {
      GreedyIsFar(wanted, text, other);
    }
    forall other, k | Embeds(wanted, text, other) && 0 <= k < |other| ensures k < |hits| && hits[k] <= other[k] {
      GreedyIsEarly(wanted, text, other, k);
    }
    hide Greedy, Begins, LowerText;
  }

  /** Typing on only narrows what matches, and keeps the hits found so far. */
  lemma TypingNarrows(lower: Lowering, query: string, more: string, target: string)
    requires Hits(lower, query + more, target).Some?
    ensures Hits(lower, query, target) == Some(Hits(lower, query + more, target).value[..|query|])
  {
    var longer := LowerText(lower, query + more);
    assert longer[..|query|] == LowerText(lower, query);
    var all := Greedy(longer, LowerText(lower, target));
    GreedyOfPrefix(longer, |query|, LowerText(lower, target));
    assert |query| == |all| ==> all[..|query|] == all;
  }

  method Match(lower: Lowering, query: string, target: string) returns (r: Option<seq<nat>>)
    ensures r == Hits(lower, query, target)
  {
    GreedySpells(LowerText(lower, query), LowerText(lower, target));
    if query == "" {
      return Some([]);
    }
    var lowered, wanted := LowerText(lower, target), LowerText(lower, query);
    var hits: seq<nat>, index := [], 0;
    for position := 0 to |lowered|
      invariant index == |hits| < |wanted|
      invariant hits == Greedy(wanted, lowered[..position])
    {
      assert lowered[..position + 1][..position] == lowered[..position];
      if lowered[position] == wanted[index] {
        hits := hits + [position];
        index := index + 1;
        if index == |wanted| {
          GreedyStops(wanted, lowered, position + 1);
          return Some(hits);
        }
      }
    }
    assert lowered[..|lowered|] == lowered;
    return None;
  }

  /** Once the whole query is found the rest of the text is not looked at. */
  lemma {:induction false} GreedyStops(wanted: string, text: string, n: nat)
    requires n <= |text| && |Greedy(wanted, text[..n])| == |wanted|
    ensures Greedy(wanted, text) == Greedy(wanted, text[..n])
  {
    if n < |text| {
      assert text[..|text| - 1][..n] == text[..n];
      GreedyStops(wanted, text[..|text| - 1], n);
    } else {
      assert text[..n] == text;
    }
  }

  // ------------------------------------------------------------ scoring

  predicate StartsWord(hits: seq<nat>, target: string, k: nat)
    requires k < |hits| && hits[k] < |target|
  {
    hits[k] == 0 || IsBoundary(target[hits[k] - 1])
  }

  predicate Continues(hits: seq<nat>, k: nat)
    requires k < |hits|
  {
    k != 0 && hits[k - 1] + 1 == hits[k]
  }

  /** The hits that start a word of the target. */
  ghost function WordStarts(hits: seq<nat>, target: string): set<nat>
    requires forall k :: 0 <= k < |hits| ==> hits[k] < |target|
  {
    set k: nat | k < |hits| && StartsWord(hits, target, k)
  }

  /** The hits that directly follow the one before. */
  ghost function Continuations(hits: seq<nat>): set<nat> {
    set k: nat | k < |hits| && Continues(hits, k)
  }

  lemma OneMoreHit(hits: seq<nat>, target: string, n: nat)
    requires n < |hits| && forall k :: 0 <= k < |hits| ==> hits[k] < |target|
    ensures WordStarts(hits[..n + 1], target)
         == if StartsWord(hits, target, n) then WordStarts(hits[..n], target) + {n} else WordStarts(hits[..n], target)
    ensures Continuations(hits[..n + 1])
         == if Continues(hits, n) then Continuations(hits[..n]) + {n} else Continuations(hits[..n])
    ensures n !in WordStarts(hits[..n], target) && n !in Continuations(hits[..n])
  {
    forall k: nat | k < n
      ensures StartsWord(hits[..n + 1], target, k) == StartsWord(hits[..n], target, k)
      ensures Continues(hits[..n + 1], k) == Continues(hits[..n], k)
    {
    }
  }

  ghost function ScoreOf(hits: seq<nat>, target: string): int
    requires hits != [] && forall k :: 0 <= k < |hits| ==> hits[k] < |target|
  {
    |WordStarts(hits, target)| * BOUNDARY_BONUS + |Continuations(hits)| * CONSECUTIVE_BONUS
    - hits[0] * START_PENALTY - |target|
  }

  /** The score of a match, in plain numbers. */
  lemma ScoreIs(hits: seq<nat>, target: string)
    requires hits != [] && forall k :: 0 <= k < |hits| ==> hits[k] < |target|
    ensures var starts := set k: nat | k < |hits| && (hits[k] == 0 || target[hits[k] - 1] in "/-_.");
            var follows := set k: nat {:trigger hits[k]} | 0 < k < |hits| && hits[k] == hits[k - 1] + 1;
            ScoreOf(hits, target) == 5 * |starts| + 10 * |follows| - 2 * hits[0] - |target|
  {
    var starts := set k: nat | k < |hits| && (hits[k] == 0 || target[hits[k] - 1] in "/-_.");
    var follows := set k: nat {:trigger hits[k]} | 0 < k < |hits| && hits[k] == hits[k - 1] + 1;
    assert WordStarts(hits, target) == starts && Continuations(hits) == follows;
  }

  method Score(hits: seq<nat>, target: string) returns (score: int)
    requires hits != [] && forall k :: 0 <= k < |hits| ==> hits[k] < |target|
    ensures score == ScoreOf(hits, target)
  {
    assert WordStarts([], target) == {} && Continuations([]) == {};
    hide WordStarts, Continuations;
    score := 0;
    for order := 0 to |hits|
      invariant score == |WordStarts(hits[..order], target)| * BOUNDARY_BONUS
                         + |Continuations(hits[..order])| * CONSECUTIVE_BONUS
    {
      var position := hits[order];
      OneMoreHit(hits, target, order);
      if position == 0 || IsBoundary(target[position - 1]) {
        score := score + BOUNDARY_BONUS;
      }
      if order != 0 && hits[order - 1] + 1 == position {
        score := score + CONSECUTIVE_BONUS;
      }
    }
    assert hits[..|hits|] == hits;
    score := score - hits[0] * START_PENALTY;
    score := score - |target|;
  }

  // ------------------------------------------------------------ ranking

  predicate NameLe(a: Candidate, b: Candidate) {
    TextLe(a.name, b.name)
  }

  /** The sort key `(-score, len(name), name)`. */
  predicate ScoredLe(a: Scored, b: Scored) {
    || a.score > b.score
    || (&& a.score == b.score
        && (|| |a.candidate.name| < |b.candidate.name|
            || (|a.candidate.name| == |b.candidate.name| && TextLe(a.candidate.name, b.candidate.name))))
  }

  /** The entry of a candidate in the ranking; an empty query matches everything alike. */
  ghost function EntryOf(lower: Lowering, query: string, candidate: Candidate): Option<Scored> {
    if query == "" then Some(Scored(candidate, 0, []))
    else
      var hits := Hits(lower, query, candidate.name);
      HitsAreLeftmost(lower, query, candidate.name);
      if hits.None? then None else Some(Scored(candidate, ScoreOf(hits.value, candidate.name), hits.value))
  }

  ghost function Entries(lower: Lowering, query: string, candidates: seq<Candidate>): seq<Scored> {
    if candidates == [] then []
    else
      var n := |candidates| - 1;
      var before, entry := Entries(lower, query, candidates[..n]), EntryOf(lower, query, candidates[n]);
      if entry.None? then before else before + [entry.value]
  }

  function Unscored(candidates: seq<Candidate>): seq<Scored> {
    seq(|candidates|, i requires 0 <= i < |candidates| => Scored(candidates[i], 0, []))
  }

  ghost function Ranking(lower: Lowering, query: string, candidates: seq<Candidate>): seq<Scored> {
    if query == "" then Unscored(Sort(NameLe, candidates))
    else Sort(ScoredLe, Entries(lower, query, candidates))
  }

  /** Python's `items[:limit]`. */
  function Limited<T>(items: seq<T>, limit: Option<int>): (r: seq<T>)
    ensures r <= items
    ensures limit.None? ==> r == items
    ensures limit.Some? && limit.value >= 0 ==> |r| == if limit.value < |items| then limit.value else |items|
    ensures limit.Some? && limit.value < 0 ==> |r| == if |items| + limit.value > 0 then |items| + limit.value else 0
  {
    match limit
    case None => items
    case Some(n) =>
      if n >= |items| then items
      else if n >= 0 then items[..n]
      else if |items| + n > 0 then items[..|items| + n]
      else []
  }

  lemma OrdersAreTotal()
    ensures TotalPreorder(NameLe) && TotalPreorder(ScoredLe)
  {
    TextLeOrders();
  }

  method Rank(lower: Lowering, query: string, candidates: seq<Candidate>, limit: Option<int>)
    returns (ranked: seq<Scored>)
    ensures ranked == Limited(Ranking(lower, query, candidates), limit)
    ensures ranked <= Ranking(lower, query, candidates)
  {
    if query == "" {
      var ordered := Sort(NameLe, candidates);
      var all := Limited(ordered, limit);
      assert Unscored(all) == Limited(Unscored(ordered), limit);
      return Unscored(all);
    }
    var scored: seq<Scored> := [];
    for n := 0 to |candidates|
      invariant scored == Entries(lower, query, candidates[..n])
    {
      var candidate := candidates[n];
      assert candidates[..n + 1][..n] == candidates[..n];
      HitsAreLeftmost(lower, query, candidate.name);
      var hits := Match(lower, query, candidate.name);
      if hits.None? {
        continue;
      }
      var score := Score(hits.value, candidate.name);
      scored := scored + [Scored(candidate, score, hits.value)];
    }
    assert candidates[..|candidates|] == candidates;
    ranked := Limited(Sort(ScoredLe, scored), limit);
  }

  lemma EntryIsOf(lower: Lowering, query: string, candidate: Candidate)
    ensures var entry := EntryOf(lower, query, candidate);
            entry.Some? ==> entry.value.candidate == candidate
  {
  }

  lemma {:induction false} EntryCount(lower: Lowering, query: string, candidates: seq<Candidate>, scored: Scored)
    ensures multiset(Entries(lower, query, candidates))[scored]
         == if EntryOf(lower, query, scored.candidate) == Some(scored)
            then multiset(candidates)[scored.candidate] else 0
  {
    if candidates != [] {
      var n := |candidates| - 1;
      EntryIsOf(lower, query, candidates[n]);
      hide EntryOf;
      EntryCount(lower, query, candidates[..n], scored);
      assert candidates == candidates[..n] + [candidates[n]];
    }
  }

  lemma {:induction false} UnscoredIs(lower: Lowering, candidates: seq<Candidate>)
    ensures Unscored(candidates) == Entries(lower, "", candidates)
  {
    if candidates != [] {
      var n := |candidates| - 1;
      UnscoredIs(lower, candidates[..n]);
      assert Unscored(candidates) == Unscored(candidates[..n]) + [Scored(candidates[n], 0, [])];
    }
  }

  /** The ranking lists exactly the matching candidates, as often as they were offered, and in order. */
  lemma RankingIsComplete(lower: Lowering, query: string, candidates: seq<Candidate>, scored: Scored)
    ensures var ranking := Ranking(lower, query, candidates);
            query != "" ==> forall i, j {:trigger ranking[i], ranking[j]} :: 0 <= i < j < |ranking| ==>
              var a, b := ranking[i], ranking[j];
              && a.score >= b.score
              && (a.score == b.score ==>
                    && |a.candidate.name| <= |b.candidate.name|
                    && (|a.candidate.name| == |b.candidate.name| ==> TextLe(a.candidate.name, b.candidate.name)))
    ensures var ranking := Ranking(lower, "", candidates);
            forall i, j :: 0 <= i < j < |ranking| ==> TextLe(ranking[i].candidate.name, ranking[j].candidate.name)
    ensures multiset(Ranking(lower, query, candidates))[scored]
         == if EntryOf(lower, query, scored.candidate) == Some(scored)
            then multiset(candidates)[scored.candidate] else 0
  {
    OrdersAreTotal();
    var byName := Sort(NameLe, candidates);
    SortSorts(NameLe, candidates);
    if query == "" {
      UnscoredIs(lower, byName);
      EntryCount(lower, query, byName, scored);
    } else {
      SortSorts(ScoredLe, Entries(lower, query, candidates));
      EntryCount(lower, query, candidates, scored);
    }
    var ranking := Ranking(lower, "", candidates);
    forall i, j | 0 <= i < j < |ranking| ensures TextLe(ranking[i].candidate.name, ranking[j].candidate.name) {
      assert NameLe(byName[i], byName[j]);
    }
  }

  ghost predicate NamesIdentify(candidates: seq<Candidate>) {
    forall a, b :: a in candidates && b in candidates && a.name == b.name ==> a == b
  }

  /** With distinct names the ranking does not depend on the order in which candidates are offered. */
  lemma RankingForgetsOrder(lower: Lowering, query: string, first: seq<Candidate>, second: seq<Candidate>)
    requires multiset(first) == multiset(second) && NamesIdentify(first)
    ensures Ranking(lower, query, first) == Ranking(lower, query, second)
  {
    OrdersAreTotal();
    TextLeOrders();
    if query == "" {
      SortForgetsOrder(NameLe, first, second);
    } else {
      var one, two := Entries(lower, query, first), Entries(lower, query, second);
      forall scored ensures multiset(one)[scored] == multiset(two)[scored] {
        EntryCount(lower, query, first, scored);
        EntryCount(lower, query, second, scored);
      }
      forall a, b | a in one && b in one && ScoredLe(a, b) && ScoredLe(b, a) ensures a == b {
        EntryComesFrom(lower, query, first, a);
        EntryComesFrom(lower, query, first, b);
      }
      SortForgetsOrder(ScoredLe, one, two);
    }
  }

  lemma EntryComesFrom(lower: Lowering, query: string, candidates: seq<Candidate>, scored: Scored)
    requires scored in Entries(lower, query, candidates)
    ensures scored.candidate in candidates && EntryOf(lower, query, scored.candidate) == Some(scored)
  {
    assert scored in multiset(Entries(lower, query, candidates));
    EntryCount(lower, query, candidates, scored);
    assert scored.candidate in multiset(candidates);
  }
}
