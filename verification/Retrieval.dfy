/**
 * Retrieval: ranking, truncation to a token budget, cross-project selection, the engine that reads what
 * the vector index found, and the policy-enforced wrapper around it. Similarity scores are given reals.
 */
module Retrieval {
  import opened Sorting
  import opened Memory
  import opened AccessPolicy
  import opened LtmStore

  datatype Scored = Scored(entry: Entry, score: real)
  datatype Reason = NotTruncated | TokenBudget | ResultCap
  datatype Truncation = Truncation(results: seq<Scored>, consumed: int, candidates: nat, truncated: nat, reason: Reason)

  const TOKENS_PER_CHAR: real := 0.25

  // Higher scores first; ties by entry id.
  predicate Ranked(a: Scored, b: Scored) {
    a.score > b.score || (a.score == b.score && a.entry.id <= b.entry.id)
  }

  ghost predicate DistinctEntries(results: seq<Scored>) {
    forall x, y :: x in results && y in results && x.entry.id == y.entry.id ==> x == y
  }

  lemma RankedIsTotal()
    ensures TotalOrder(Ranked)
  {
  }

  // The kept results are in order, the best score first and equal scores by id; none that was left out would have come
  // before them; and they are candidates, none of them kept more often than it came in.
  ghost predicate BestFirst(kept: seq<Scored>, candidates: seq<Scored>) {
    && multiset(kept) <= multiset(candidates)
    && (forall i, j :: 0 <= i < j < |kept| ==>
          kept[i].score > kept[j].score ||
          (kept[i].score == kept[j].score && kept[i].entry.id <= kept[j].entry.id))
    && (forall x, y :: x in kept && y in multiset(candidates) - multiset(kept) ==>
          x.score > y.score || (x.score == y.score && x.entry.id <= y.entry.id))
  }

  lemma RestOfCandidates(candidates: seq<Scored>, sorted: seq<Scored>, n: nat)
    requires multiset(sorted) == multiset(candidates) && n <= |sorted|
    ensures multiset(sorted[..n]) <= multiset(candidates)
    ensures multiset(candidates) - multiset(sorted[..n]) == multiset(sorted[n..])
  {
    assert sorted == sorted[..n] + sorted[n..];
    assert multiset(sorted) == multiset(sorted[..n]) + multiset(sorted[n..]);
  }

  lemma BeforeAndAfter(sorted: seq<Scored>, n: nat, x: Scored, y: Scored)
    requires Sorted(Ranked, sorted) && n <= |sorted| && x in sorted[..n] && y in sorted[n..]
    ensures Ranked(x, y)
  {
    var i :| 0 <= i < n && sorted[..n][i] == x;
    var j :| 0 <= j < |sorted| - n && sorted[n..][j] == y;
    assert sorted[i] == x && sorted[n + j] == y;
  }

  lemma BeginningIsBest(candidates: seq<Scored>, kept: seq<Scored>)
    requires kept <= Sort(Ranked, candidates)
    ensures BestFirst(kept, candidates)
  {
    RankedIsTotal();
    SortCorrect(Ranked, candidates);
    var sorted, n := Sort(Ranked, candidates), |kept|;
    assert kept == sorted[..n];
    RestOfCandidates(candidates, sorted, n);
    forall i, j | 0 <= i < j < n ensures Ranked(kept[i], kept[j]) {
      assert kept[i] == sorted[i] && kept[j] == sorted[j];
    }
    forall x, y | x in kept && y in multiset(candidates) - multiset(kept) ensures Ranked(x, y) {
      BeforeAndAfter(sorted, n, x, y);
    }
  }

  lemma DistinctEntriesDoNotTie(results: seq<Scored>)
    requires DistinctEntries(results)
    ensures NoTies(Ranked, results)
  {
  }

  // How many tokens a text counts for.
  type Estimate = string -> int

  // The length times a ratio, rounded up.
  function EstimateTokens(tokensPerChar: real): Estimate {
    (content: string) => -((-(|content| as real * tokensPerChar)).Floor)
  }

  // A text counts the least whole number that is not below its length times the ratio; at the ratio used here, one for
  // every four characters begun.
  lemma EstimateExactly(ratio: real, text: string)
    ensures var n := EstimateTokens(ratio)(text); n as real - 1.0 < |text| as real * ratio <= n as real
    ensures |text| <= 4 * EstimateTokens(TOKENS_PER_CHAR)(text) < |text| + 4
  {
    EstimateBounds(ratio, text);
    EstimateBounds(TOKENS_PER_CHAR, text);
  }

  lemma EstimateBounds(ratio: real, text: string)
    ensures var n := EstimateTokens(ratio)(text); n as real - 1.0 < |text| as real * ratio <= n as real
  {
    var y := -(|text| as real * ratio);
    assert EstimateTokens(ratio)(text) == -y.Floor;
    assert y.Floor as real <= y < y.Floor as real + 1.0;
  }

  function TotalTokens(results: seq<Scored>, tokens: Estimate): int {
    if results == [] then 0
    else TotalTokens(results[..|results| - 1], tokens) + tokens(results[|results| - 1].entry.content)
  }

  // Every prefix of the list, up to the whole, is within the budget.
  ghost predicate Fits(results: seq<Scored>, budget: real, tokens: Estimate) {
    forall n :: 0 < n <= |results| ==> TotalTokens(results[..n], tokens) as real <= budget
  }

  // kept is the longest beginning of sorted that fits.
  ghost predicate LongestFitting(kept: seq<Scored>, sorted: seq<Scored>, budget: real, tokens: Estimate) {
    && kept <= sorted && Fits(kept, budget, tokens)
    && (|kept| < |sorted| ==> TotalTokens(sorted[..|kept| + 1], tokens) as real > budget)
  }

  // The truncation loop: take results while they fit, and stop at the first that does not.
  method TakeWhileFits(sorted: seq<Scored>, budget: real, tokens: Estimate) returns (kept: seq<Scored>, consumed: int)
    ensures LongestFitting(kept, sorted, budget, tokens)
    ensures consumed == TotalTokens(kept, tokens) && (budget >= 0.0 ==> consumed as real <= budget)
  {
    consumed, kept := 0, [];
    var i := 0;
    while i < |sorted|
      invariant 0 <= i <= |sorted| && kept == sorted[..i]
      invariant consumed == TotalTokens(kept, tokens) && (budget >= 0.0 ==> consumed as real <= budget)
      invariant Fits(kept, budget, tokens)
    {
      var cost := tokens(sorted[i].entry.content);
      assert sorted[..i + 1][..i] == sorted[..i];
      if (consumed + cost) as real > budget {
        return;
      }
      FitsGrows(kept, sorted[i], budget, tokens);
      kept := kept + [sorted[i]];
      consumed := consumed + cost;
      i := i + 1;
    }
  }

  method TruncateByTokenBudget(results: seq<Scored>, budget: real, tokensPerChar: real) returns (r: Truncation)
    ensures r.candidates == |results| && r.truncated == |results| - |r.results|
    ensures r.consumed == TotalTokens(r.results, EstimateTokens(tokensPerChar))
    ensures r.reason == if r.truncated > 0 then TokenBudget else NotTruncated
    ensures budget <= 0.0 ==> r.results == []
    ensures budget > 0.0 ==>
              && LongestFitting(r.results, Sort(Ranked, results), budget, EstimateTokens(tokensPerChar))
              && r.consumed as real <= budget
    ensures BestFirst(r.results, results)
  {
    if budget <= 0.0 {
      BeginningIsBest(results, []);
      return Truncation([], 0, |results|, |results|, if |results| > 0 then TokenBudget else NotTruncated);
    }
    RankedIsTotal();
    SortCorrect(Ranked, results);
    var kept, consumed := TakeWhileFits(Sort(Ranked, results), budget, EstimateTokens(tokensPerChar));
    BeginningIsBest(results, kept);
    var truncated := |results| - |kept|;
    r := Truncation(kept, consumed, |results|, truncated, if truncated > 0 then TokenBudget else NotTruncated);
  }

  lemma FitsGrows(kept: seq<Scored>, next: Scored, budget: real, tokens: Estimate)
    requires Fits(kept, budget, tokens)
    requires (TotalTokens(kept, tokens) + tokens(next.entry.content)) as real <= budget
    ensures Fits(kept + [next], budget, tokens)
    ensures TotalTokens(kept + [next], tokens) == TotalTokens(kept, tokens) + tokens(next.entry.content)
  {
    var all := kept + [next];
    assert all[..|kept|] == kept;
    forall n | 0 < n <= |all| ensures TotalTokens(all[..n], tokens) as real <= budget {
      if n <= |kept| {
        assert all[..n] == kept[..n];
      } else {
        assert all[..n] == all;
      }
    }
  }

  // There is only one longest fitting beginning.
  lemma LongestFittingUnique(a: seq<Scored>, b: seq<Scored>, sorted: seq<Scored>, budget: real, tokens: Estimate)
    requires LongestFitting(a, sorted, budget, tokens) && LongestFitting(b, sorted, budget, tokens)
    ensures a == b
  {
    assert forall n :: 0 <= n <= |a| ==> a[..n] == sorted[..n];
    assert forall n :: 0 <= n <= |b| ==> b[..n] == sorted[..n];
  }

  // What is kept does not depend on the order in which the candidates arrive.
  lemma TruncationCanonical(results: seq<Scored>, shuffled: seq<Scored>, a: seq<Scored>, b: seq<Scored>, budget: real,
                            tokens: Estimate)
    requires DistinctEntries(results) && multiset(results) == multiset(shuffled)
    requires LongestFitting(a, Sort(Ranked, results), budget, tokens)
    requires LongestFitting(b, Sort(Ranked, shuffled), budget, tokens)
    ensures a == b
  {
    RankedIsTotal();
    DistinctEntriesDoNotTie(results);
    SortCanonical(Ranked, results, shuffled);
    LongestFittingUnique(a, b, Sort(Ranked, results), budget, tokens);
  }

  // Truncating what was kept once more, with the same budget, keeps all of it.
  lemma TruncationIdempotent(results: seq<Scored>, a: seq<Scored>, b: seq<Scored>, budget: real, tokens: Estimate)
    requires DistinctEntries(results)
    requires LongestFitting(a, Sort(Ranked, results), budget, tokens)
    requires LongestFitting(b, Sort(Ranked, a), budget, tokens)
    ensures b == a
  {
    RankedIsTotal();
    SortCorrect(Ranked, results);
    SameElements(results, Sort(Ranked, results));
    var sorted := Sort(Ranked, results);
    assert forall i :: 0 <= i < |a| ==> a[i] == sorted[i];
    assert forall x :: x in a ==> x in sorted;
    DistinctEntriesDoNotTie(a);
    SortOfSorted(Ranked, a);
  }

  // A larger budget keeps what a smaller one kept, and possibly more after it.
  lemma LargerBudgetExtends(sorted: seq<Scored>, a: seq<Scored>, b: seq<Scored>, budget: real, larger: real,
                            tokens: Estimate)
    requires budget <= larger
    requires LongestFitting(a, sorted, budget, tokens) && LongestFitting(b, sorted, larger, tokens)
    ensures a <= b
  {
    assert forall n :: 0 <= n <= |a| ==> a[..n] == sorted[..n];
  }

  // The early exit for budgets that are not positive is the longest fitting beginning too, unless the best result
  // estimates to no more tokens than the budget.
  lemma EmptyBudgetExactly(results: seq<Scored>, budget: real, tokens: Estimate)
    requires budget <= 0.0
    ensures LongestFitting([], Sort(Ranked, results), budget, tokens) <==>
              results == [] || tokens(Sort(Ranked, results)[0].entry.content) as real > budget
  {
    RankedIsTotal();
    SortCorrect(Ranked, results);
    var sorted := Sort(Ranked, results);
    if results != [] {
      assert sorted[..1][..0] == [];
      assert TotalTokens(sorted[..1], tokens) == tokens(sorted[0].entry.content);
    }
  }

  /******* Cross-project selection *******/

  function Capped(sorted: seq<Scored>, cap: nat): (r: seq<Scored>)
    ensures r <= sorted && |r| <= cap && (|r| < |sorted| ==> |r| == cap)
  {
    if cap < |sorted| then sorted[..cap] else sorted
  }

  // The reason tells which limit struck first: the cap if it cut anything, else the budget if it did.
  method ApplySelectionPolicy(results: seq<Scored>, cap: nat, budget: nat) returns (final: seq<Scored>, reason: Reason)
    ensures LongestFitting(final, Capped(Sort(Ranked, results), cap), budget as real, EstimateTokens(TOKENS_PER_CHAR))
    ensures BestFirst(final, results) && |final| <= cap && TotalTokens(final, EstimateTokens(TOKENS_PER_CHAR)) <= budget
    ensures reason == ResultCap <==> |results| > cap
    ensures reason == NotTruncated <==> |final| == |results|
  {
    RankedIsTotal();
    SortCorrect(Ranked, results);
    var sorted := Sort(Ranked, results);
    reason := NotTruncated;
    var kept := Capped(sorted, cap);
    if |kept| < |sorted| {
      reason := ResultCap;
    }
    var taken, consumed := TakeWhileFits(kept, budget as real, EstimateTokens(TOKENS_PER_CHAR));
    final := taken;
    BeginningIsBest(results, final);
    if |final| < |kept| && reason == NotTruncated {
      reason := TokenBudget;
    }
  }

  // A budget of zero and a result without text: it costs nothing, and the loop would keep it.
  lemma EmptyResultIsDropped() returns (results: seq<Scored>, budget: real)
    ensures budget <= 0.0 && |results| == 1
    ensures LongestFitting(results, Sort(Ranked, results), budget, EstimateTokens(TOKENS_PER_CHAR))
  {
    var entry := Entry(1, Fact, "", Global, None, 1.0, Neutral, 0, {}, 0, 0, DomainVersioned, Active, None, None, None,
                       GlobalProbation, None, []);
    results, budget := [Scored(entry, 1.0)], 0.0;
    assert TotalTokens(results[..0], EstimateTokens(TOKENS_PER_CHAR)) == 0;
    assert results[..1] == results && EstimateTokens(TOKENS_PER_CHAR)("") == 0;
  }

  /******* Reading what the index found *******/

  // Without a filter only active entries are visible. Limit and offset of a filter are not looked at here.
  predicate Visible(e: Entry, filter: Option<QueryFilter>) {
    if filter.None? then e.status == Active else Matches(e, filter.value)
  }

  // The query does not ask for entries that are no longer active.
  predicate OnlyActive(filter: Option<QueryFilter>) {
    filter.None? || forall status :: filter.value.Admits(status) ==> status == Active
  }

  // hits are ids from the vector index, best first, each with its score; ids without an entry are skipped.
  function ReadHits(m: Entries, hits: seq<(EntryId, real)>, filter: Option<QueryFilter>): seq<Scored> {
    if hits == [] then []
    else
      var n := |hits| - 1;
      var before := ReadHits(m, hits[..n], filter);
      if hits[n].0 in m && Visible(m[hits[n].0], filter) then before + [Scored(m[hits[n].0], hits[n].1)] else before
  }

  method Retrieve(m: Entries, hits: seq<(EntryId, real)>, filter: Option<QueryFilter>, budget: real)
    returns (r: Truncation)
    ensures Keyed(m) ==>
              forall x :: x in r.results ==> x.entry.id in m && m[x.entry.id] == x.entry && Visible(x.entry, filter)
    ensures BestFirst(r.results, ReadHits(m, hits, filter)) && (budget <= 0.0 ==> r.results == [])
    ensures budget > 0.0 ==>
              LongestFitting(r.results, Sort(Ranked, ReadHits(m, hits, filter)), budget,
                             EstimateTokens(TOKENS_PER_CHAR))
  {
    var entries: seq<Scored> := [];
    for n := 0 to |hits|
      invariant entries == ReadHits(m, hits[..n], filter)
    {
      assert hits[..n + 1][..n] == hits[..n];
      var id := hits[n].0;
      if id in m && Visible(m[id], filter) {
        entries := entries + [Scored(m[id], hits[n].1)];
      }
    }
    assert hits[..|hits|] == hits;
    r := TruncateByTokenBudget(entries, budget, TOKENS_PER_CHAR);
    if budget > 0.0 && Keyed(m) {
      KeptAreVisible(m, hits, filter, r.results);
    }
  }

  lemma KeptAreVisible(m: Entries, hits: seq<(EntryId, real)>, filter: Option<QueryFilter>, kept: seq<Scored>)
    requires Keyed(m) && kept <= Sort(Ranked, ReadHits(m, hits, filter))
    ensures forall x :: x in kept ==> x.entry.id in m && m[x.entry.id] == x.entry && Visible(x.entry, filter)
  {
    var read := ReadHits(m, hits, filter);
    ReadHitsVisible(m, hits, filter);
    RankedIsTotal();
    SortCorrect(Ranked, read);
    SameElements(read, Sort(Ranked, read));
    assert forall x :: x in kept ==> x in Sort(Ranked, read);
  }

  lemma {:induction false} ReadHitsVisible(m: Entries, hits: seq<(EntryId, real)>, filter: Option<QueryFilter>)
    requires Keyed(m)
    ensures forall x :: x in ReadHits(m, hits, filter) ==>
            x.entry.id in m && m[x.entry.id] == x.entry && Visible(x.entry, filter)
  {
    if hits != [] {
      ReadHitsVisible(m, hits[..|hits| - 1], filter);
    }
  }

  predicate Readable(m: Entries, hit: (EntryId, real), filter: Option<QueryFilter>) {
    hit.0 in m && Visible(m[hit.0], filter)
  }

  // A hit is read exactly when its entry is stored and visible to the query, with the score the index gave it.
  lemma {:induction false} FoundExactly(m: Entries, hits: seq<(EntryId, real)>, filter: Option<QueryFilter>, x: Scored)
    ensures x in ReadHits(m, hits, filter) <==>
              exists k :: 0 <= k < |hits| && Readable(m, hits[k], filter) && x == Scored(m[hits[k].0], hits[k].1)
  {
    if hits != [] {
      var n := |hits| - 1;
      FoundExactly(m, hits[..n], filter, x);
      assert forall k :: 0 <= k < n ==> hits[..n][k] == hits[k];
    }
  }

  ghost function ReadableAt(m: Entries, hits: seq<(EntryId, real)>, filter: Option<QueryFilter>): set<int> {
    set k | 0 <= k < |hits| && Readable(m, hits[k], filter)
  }

  lemma ReadableGrows(m: Entries, hits: seq<(EntryId, real)>, filter: Option<QueryFilter>, n: nat)
    requires |hits| == n + 1
    ensures ReadableAt(m, hits, filter) ==
            ReadableAt(m, hits[..n], filter) + if Readable(m, hits[n], filter) then {n} else {}
    ensures n !in ReadableAt(m, hits[..n], filter)
  {
    forall k ensures k in ReadableAt(m, hits, filter) <==>
              k in ReadableAt(m, hits[..n], filter) || (k == n && Readable(m, hits[n], filter)) {
      assert 0 <= k < n ==> hits[..n][k] == hits[k];
    }
  }

  // And as often as the index lists it.
  lemma {:induction false} FoundAsOften(m: Entries, hits: seq<(EntryId, real)>, filter: Option<QueryFilter>)
    ensures |ReadHits(m, hits, filter)| == |ReadableAt(m, hits, filter)|
  {
    if hits != [] {
      var n := |hits| - 1;
      FoundAsOften(m, hits[..n], filter);
      ReadableGrows(m, hits, filter, n);
    }
  }

  // In terms of ids: an entry the index finds is read exactly when it is stored and visible.
  lemma FoundById(m: Entries, hits: seq<(EntryId, real)>, filter: Option<QueryFilter>, id: EntryId)
    requires Keyed(m) && exists k :: 0 <= k < |hits| && hits[k].0 == id
    ensures (exists x :: x in ReadHits(m, hits, filter) && x.entry.id == id) <==> id in m && Visible(m[id], filter)
  {
    if id in m && Visible(m[id], filter) {
      var k :| 0 <= k < |hits| && hits[k].0 == id;
      assert Readable(m, hits[k], filter);
      FoundExactly(m, hits, filter, Scored(m[id], hits[k].1));
    }
    ReadHitsVisible(m, hits, filter);
  }

  /******* Retrieval under the access policy *******/

  function StoredPolicy(store: map<ProjectId, Config>, id: ProjectId): Option<Policy> {
    if id in store then Some(PolicyOf(store[id])) else None
  }

  // The filter, with the policy of the entry's own project where that is another one.
  predicate PassesFilter(x: Scored, from: ProjectId, store: map<ProjectId, Config>)
    requires from in store
  {
    var p := x.entry.project;
    var other := if p.Some? && p.value != from then StoredPolicy(store, p.value) else None;
    ResultAllowed(p, x.entry.scope, from, PolicyOf(store[from]), other)
  }

  function Passing(from: ProjectId, store: map<ProjectId, Config>): Scored -> bool
    requires from in store
  {
    (x: Scored) => PassesFilter(x, from, store)
  }

  // The configurations the wrapper loads up front.
  function Loaded(q: Query, store: map<ProjectId, Config>): map<ProjectId, Config> {
    var listed := if q.targets.Some? then q.targets.value else [];
    map t | t in store && (if listed != [] then t in listed else q.filterProject == Some(t)) :: store[t]
  }

  ghost predicate Permitted(q: Query, store: map<ProjectId, Config>, control: Option<ControlState>) {
    && q.project.Some? && q.project.value in store
    && var ctx := BuildContext(q, Some(store[q.project.value]), Loaded(q, store), control);
       ctx.Some? && Evaluate(ctx.value).Allowed?
  }

  // When the wrapper lets a query through, from the query, the stored configurations and the control state alone. A
  // hard-stopped project gets nothing, whatever it asks for.
  lemma PermittedExactly(q: Query, store: map<ProjectId, Config>, control: Option<ControlState>)
    ensures Permitted(q, store, control) <==>
              && control != Some(HardStopped) && q.project.Some? && q.project.value in store
              && (q.scope == Some(Project) || PolicyOf(store[q.project.value]).inheritsGlobal)
              && TargetsAdmit(q, PolicyOf(store[q.project.value]), store)
  {
    if q.project.Some? && q.project.value in store {
      var own := store[q.project.value];
      QueryPassesExactly(q, Some(own), Loaded(q, store), control);
      assert TargetsAdmit(q, PolicyOf(own), Loaded(q, store)) <==> TargetsAdmit(q, PolicyOf(own), store);
    }
  }

  // What the filter lets through: global entries if the project inherits them, its own entries, those that belong to
  // no project, and those of a configured project where both admit each other.
  lemma PassesExactly(x: Scored, from: ProjectId, store: map<ProjectId, Config>)
    requires from in store
    ensures PassesFilter(x, from, store) <==>
              if x.entry.scope == Global then PolicyOf(store[from]).inheritsGlobal
              else if x.entry.project.None? || x.entry.project.value == from then true
              else
                var p := x.entry.project.value;
                p in store && BothAdmit(from, PolicyOf(store[from]), p, PolicyOf(store[p]))
  {
  }

  // inner is what the wrapped engine finds for the query.
  method RetrieveUnderPolicy(q: Query, store: map<ProjectId, Config>, control: Option<ControlState>, inner: seq<Scored>,
                             cap: nat, budget: nat)
    returns (results: seq<Scored>)
    ensures !Permitted(q, store, control) ==> results == []
    ensures Permitted(q, store, control) && (q.targets.None? || q.targets.value == []) ==>
              results == Filter(Passing(q.project.value, store), inner)
    ensures Permitted(q, store, control) && q.targets.Some? && q.targets.value != [] ==>
              LongestFitting(results, Capped(Sort(Ranked, Filter(Passing(q.project.value, store), inner)), cap),
                             budget as real, EstimateTokens(TOKENS_PER_CHAR))
  {
    if q.project.None? || q.project.value !in store {
      return [];
    }
    var from := q.project.value;
    var ctx := BuildContext(q, Some(store[from]), Loaded(q, store), control);
    if ctx.None? || !Evaluate(ctx.value).Allowed? {
      return [];
    }
    results := Filter(Passing(from, store), inner);
    if q.targets.Some? && q.targets.value != [] {
      var selected, reason := ApplySelectionPolicy(results, cap, budget);
      results := selected;
    }
  }

  // Nothing leaves the wrapper that the engine would not let through on its own: every result was found by the inner
  // engine and is of the own project, or global with global inheritance, or of a project whose reading is allowed.
  lemma ResultsAreAllowed(q: Query, store: map<ProjectId, Config>, inner: seq<Scored>, results: seq<Scored>, cap: nat,
                          budget: real, x: Scored)
    requires q.project.Some? && q.project.value in store
    requires var passing := Filter(Passing(q.project.value, store), inner);
             results == passing
               || LongestFitting(results, Capped(Sort(Ranked, passing), cap), budget, EstimateTokens(TOKENS_PER_CHAR))
    requires x in results
    ensures x in inner
    ensures var from, policy := q.project.value, PolicyOf(store[q.project.value]);
            if x.entry.scope == Global then Evaluate(GlobalContext(from, policy)).Allowed?
            else x.entry.project.None? || x.entry.project.value == from
                 || Evaluate(ReadContext(from, policy, x.entry.project.value,
                                         StoredPolicy(store, x.entry.project.value))).Allowed?
  {
    var from := q.project.value;
    var passing := Filter(Passing(from, store), inner);
    RankedIsTotal();
    SortCorrect(Ranked, passing);
    SameElements(passing, Sort(Ranked, passing));
    FilterContents(Passing(from, store), inner);
    assert x in passing by {
      if results != passing {
        var capped := Capped(Sort(Ranked, passing), cap);
        assert results <= capped <= Sort(Ranked, passing);
        assert x in Sort(Ranked, passing);
      }
    }
    var p := x.entry.project;
    FilterAgreesWithEngine(p, x.entry.scope, from, PolicyOf(store[from]),
                           if p.Some? && p.value != from then StoredPolicy(store, p.value) else None);
  }
}
