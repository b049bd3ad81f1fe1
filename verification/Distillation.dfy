/**
 * The distillation engine: the write / mark-superseded / audit saga with its compensation, the pass
 * that runs it over every cluster, and the reversal of a promotion.
 */
module Distillation {
  import opened Sorting
  import opened Memory
  import opened Clustering
  import opened Promotion
  import opened LtmStore

  datatype Engine = Engine(clusters: Config, signals: SignalConfig, lifecycle: Lifecycle) {
    predicate Valid() {
      clusters.Valid() && signals.Valid()  // the lifecycle settings are not parsed
    }
  }

  // What the clock and the id factory yield while one cluster is handled; restoredAt is read once per
  // source, and only while compensating.
  datatype Tick = Tick(referenceAt: Time, patternId: EntryId, traceId: nat, stampedAt: Time, markedAt: Time,
                       restoredAt: nat -> Time)

  // What fails while one cluster is handled. Storage: on the pattern write, after so many source marks, after so many
  // restores, or on the delete of the pattern. Observers, whose errors are not caught: while the decision is recorded,
  // right after the pattern was written, or before the compensation starts. audit: the audit append, or an observer
  // called after the marks.
  datatype Faults = Faults(
    decision: bool, patternWrite: bool, written: bool, marks: Option<nat>, audit: bool, compensation: bool,
    restores: Option<nat>, delete: bool)
  {
    predicate CompensationWorks() {
      !written && !compensation && restores.None? && !delete
    }

    // The promotion, if it is not carried out, is undone or was never begun.
    predicate Clean() {
      patternWrite || (!written && ((marks.None? && !audit) || (!compensation && restores.None? && !delete)))
    }
  }

  // NotRolledBack: an observer's error left the saga without compensation.
  datatype Outcome = Promoted | PatternNotWritten | RolledBack | RollbackIncomplete | NotRolledBack

  function MakePattern(g: Group, tick: Tick, engine: Engine): Entry
    requires g != [] && engine.Valid()
  {
    Entry(tick.patternId, DistilledPattern, "", Project, g[0].project, Confidence(g, engine.lifecycle), Neutral,
          tick.traceId, AllTags(g), tick.stampedAt, tick.stampedAt, DomainVersioned, Active, None, None, None,
          ProjectPlacement, None, Ids(g))
  }

  function AllTags(g: Group): set<string> {
    if g == [] then {} else g[0].tags + AllTags(g[1..])
  }

  function Stopped(limit: Option<nat>, n: nat): (k: nat)
    ensures k <= n
  {
    if limit.Some? && limit.value < n then limit.value else n
  }

  function RestoredEntry(e: Entry, at: Time): Entry {
    e.(status := Active, supersededBy := None, updatedAt := at)
  }

  // Compensation: every source that points at the pattern is made active again.
  function Restored(m: Entries, ids: seq<EntryId>, pattern: EntryId, clock: nat -> Time): Entries {
    if ids == [] then m
    else
      var n := |ids| - 1;
      var before := Restored(m, ids[..n], pattern, clock);
      if ids[n] in before && before[ids[n]].supersededBy == Some(pattern)
        then before[ids[n] := RestoredEntry(before[ids[n]], clock(n))] else before
  }

  // The entries after the saga, and how it ended.
  function Persisted(m: Entries, pattern: Entry, tick: Tick, faults: Faults): (Entries, Outcome) {
    if faults.patternWrite || !Storable(pattern) then (m, PatternNotWritten)
    else if faults.written then (m[pattern.id := pattern], NotRolledBack)
    else
      var sources := pattern.sources;
      var marked := Marked(m[pattern.id := pattern], sources[..Stopped(faults.marks, |sources|)], pattern.id,
                           tick.markedAt);
      if faults.marks.None? && !faults.audit then (marked, Promoted)
      else if faults.compensation then (marked, NotRolledBack)
      else
        var restored := Restored(marked, sources[..Stopped(faults.restores, |sources|)], pattern.id, tick.restoredAt);
        if faults.restores.Some? || faults.delete then (restored, RollbackIncomplete)
        else (restored - {pattern.id}, RolledBack)
  }

  /******* The saga is all or nothing *******/

  // No entry refers to the pattern id yet.
  ghost predicate FreshPattern(m: Entries, pattern: Entry) {
    && pattern.id !in m && pattern.id !in pattern.sources
    && forall id :: id in m ==> m[id].supersededBy != Some(pattern.id)
  }

  ghost predicate ActiveWithoutSuccessor(m: Entries, ids: seq<EntryId>) {
    forall id :: id in m && id in ids ==> m[id].status == Active && m[id].supersededBy == None
  }

  lemma RestoreOneMore(m: Entries, ids: seq<EntryId>, pattern: EntryId, clock: nat -> Time, n: nat)
    requires n < |ids|
    ensures
      var before, after := Restored(m, ids[..n], pattern, clock), Restored(m, ids[..n + 1], pattern, clock);
      after == if ids[n] in before && before[ids[n]].supersededBy == Some(pattern)
               then before[ids[n] := RestoredEntry(before[ids[n]], clock(n))] else before
  {
    assert ids[..n + 1][..n] == ids[..n];
  }

  // What compensation does to one entry, whatever the clock said.
  ghost predicate RestoredTo(a: Entry, b: Entry, pattern: EntryId) {
    if a.supersededBy == Some(pattern) then b == RestoredEntry(a, b.updatedAt) else b == a
  }

  lemma {:induction false} RestoredContents(m: Entries, ids: seq<EntryId>, pattern: EntryId, clock: nat -> Time)
    ensures Restored(m, ids, pattern, clock).Keys == m.Keys
    ensures forall id :: id in m && id !in ids ==> Restored(m, ids, pattern, clock)[id] == m[id]
    ensures forall id :: id in m && id in ids ==> RestoredTo(m[id], Restored(m, ids, pattern, clock)[id], pattern)
  {
    if ids != [] {
      var n := |ids| - 1;
      RestoredContents(m, ids[..n], pattern, clock);
      assert ids == ids[..n] + [ids[n]];
    }
  }

  // A compensation touches the sources it restores one reading of the clock after the other.
  lemma {:induction false} RestoredTouch(m: Entries, ids: seq<EntryId>, pattern: EntryId, clock: nat -> Time, i: nat)
    requires Distinct(ids) && i < |ids| && ids[i] in m && m[ids[i]].supersededBy == Some(pattern)
    ensures
      var m' := Restored(m, ids, pattern, clock);
      ids[i] in m' && m'[ids[i]] == m[ids[i]].(status := Active, supersededBy := None, updatedAt := clock(i))
  {
    var n := |ids| - 1;
    RestoredContents(m, ids[..n], pattern, clock);
    if i < n {
      RestoredTouch(m, ids[..n], pattern, clock, i);
    }
  }

  // After a rollback that ran to its end the store is as before the promotion, but for the touch times of
  // the sources that had been marked, exactly when each of those was active and had no successor.
  lemma RollbackExact(m: Entries, pattern: Entry, tick: Tick, faults: Faults)
    requires FreshPattern(m, pattern) && Persisted(m, pattern, tick, faults).1 == RolledBack
    ensures var marked := pattern.sources[..Stopped(faults.marks, |pattern.sources|)];
            SameExceptTouched(m, Persisted(m, pattern, tick, faults).0, set id | id in marked) <==>
              ActiveWithoutSuccessor(m, marked)
  {
    var sources := pattern.sources;
    var k := Stopped(faults.marks, |sources|);
    var marked := Marked(m[pattern.id := pattern], sources[..k], pattern.id, tick.markedAt);
    var after := Persisted(m, pattern, tick, faults).0;
    assert sources[..|sources|] == sources;
    RestoredContents(marked, sources, pattern.id, tick.restoredAt);
    assert forall id :: id in sources[..k] ==> id in sources;
    assert after.Keys == m.Keys;
    forall id | id in m
      ensures id !in sources[..k] ==> after[id] == m[id]
      ensures id in sources[..k] ==> after[id] == RestoredEntry(m[id], after[id].updatedAt)
    {
      if id in sources {
        assert RestoredTo(marked[id], after[id], pattern.id);
      }
    }
    assert forall id :: id in m && id in sources[..k] ==>
      (SameButTouched(m[id], after[id]) <==> m[id].status == Active && m[id].supersededBy == None);
  }

  // All of the promotion, or none of it but touch times of the sources.
  ghost predicate AllOrNothing(m: Entries, pattern: Entry, after: Entries, outcome: Outcome) {
    outcome == Promoted || SameExceptTouched(m, after, set id | id in pattern.sources)
  }

  // A promotion that goes through writes the pattern, marks its sources, and changes nothing else.
  lemma PromotionApplies(m: Entries, pattern: Entry, tick: Tick, faults: Faults)
    requires FreshPattern(m, pattern) && Persisted(m, pattern, tick, faults).1 == Promoted
    ensures
      var after := Persisted(m, pattern, tick, faults).0;
      && after.Keys == m.Keys + {pattern.id} && after[pattern.id] == pattern
      && forall id :: id in m ==>
           after[id] == if id in pattern.sources then MarkedEntry(m[id], pattern.id, tick.markedAt) else m[id]
  {
    var sources := pattern.sources;
    assert sources[..|sources|] == sources;
  }

  // The ways a promotion can end, for every fault point: it is all or nothing if and only if the faults are clean. What
  // remains otherwise includes the pattern.
  lemma PromotionIsAtomic(m: Entries, pattern: Entry, tick: Tick, faults: Faults)
    requires FreshPattern(m, pattern) && Storable(pattern) && ActiveWithoutSuccessor(m, pattern.sources)
    ensures
      var (after, outcome) := Persisted(m, pattern, tick, faults);
      && (outcome == Promoted <==> !faults.patternWrite && !faults.written && faults.marks.None? && !faults.audit)
      && (AllOrNothing(m, pattern, after, outcome) <==> faults.Clean())
      && (outcome == PatternNotWritten ==> after == m)
      && (outcome == NotRolledBack <==>
            && !faults.patternWrite
            && (faults.written || ((faults.marks.Some? || faults.audit) && faults.compensation)))
      && (outcome == NotRolledBack || outcome == RollbackIncomplete <==> !faults.Clean())
      && (outcome == NotRolledBack || outcome == RollbackIncomplete ==> pattern.id in after)
  {
    var sources := pattern.sources;
    var (after, outcome) := Persisted(m, pattern, tick, faults);
    if outcome == RolledBack {
      var k := Stopped(faults.marks, |sources|);
      assert forall id :: id in sources[..k] ==> id in sources;
      RollbackExact(m, pattern, tick, faults);
    } else if outcome == RollbackIncomplete {
      RestoredContents(Marked(m[pattern.id := pattern], sources[..Stopped(faults.marks, |sources|)], pattern.id,
                              tick.markedAt),
                       sources[..Stopped(faults.restores, |sources|)], pattern.id, tick.restoredAt);
    }
  }

  predicate Promotes(g: Group, tick: Tick, engine: Engine)
    requires engine.Valid()
  {
    g != [] && Decide(g, tick.referenceAt, engine.signals, engine.lifecycle) == Promote
  }

  lemma {:induction false} AllTagsContents(g: Group)
    ensures forall t :: t in AllTags(g) <==> exists r :: r in g && t in r.tags
  {
    if g != [] {
      AllTagsContents(g[1..]);
      assert g == [g[0]] + g[1..];
    }
  }

  // What a pattern says of the cluster it was made from: its project, sources, tags and confidence are the cluster's,
  // and it starts out as an active entry of its project that nothing has happened to.
  ghost predicate IsPatternOf(p: Entry, g: Group, tick: Tick, config: Lifecycle) {
    && g != [] && p.kind == DistilledPattern && p.scope == Project && p.project == g[0].project
    && |p.sources| == |g| && (forall i :: 0 <= i < |g| ==> p.sources[i] == g[i].id)
    && (forall t :: t in p.tags <==> exists r :: r in g && t in r.tags)
    && Measures(p.confidence, g, config)
    && p.id == tick.patternId && p.traceId == tick.traceId && p.createdAt == p.updatedAt == tick.stampedAt
    && p.sentiment == Neutral && p.content == "" && p.mutability == DomainVersioned && p.placement == ProjectPlacement
    && p.status == Active && p.supersededBy == None && p.deletedAt == None && p.tombstone == None
    && p.lastMutation == None
  }

  // The pattern of a promoted cluster describes it, can be stored, and is confident enough.
  lemma PromotedPatternIsSound(g: Group, tick: Tick, engine: Engine)
    requires engine.Valid() && Promotes(g, tick, engine)
    ensures
      var p := MakePattern(g, tick, engine);
      && IsPatternOf(p, g, tick, engine.lifecycle) && Storable(p)
      && 0.0 <= p.confidence <= 1.0 && (engine.lifecycle.Valid() ==> p.confidence >= 0.6)
  {
    IdsInOrder(g);
    AllTagsContents(g);
    ConfidenceMeasures(g, engine.lifecycle);
    PromotedIsConfident(g, tick.referenceAt, engine.signals, engine.lifecycle);
    RoundedIsBounded(RawConfidence(Aligned(g), |g|, engine.lifecycle.highMinSignals));
  }

  lemma {:induction false} IdsInOrder(g: Group)
    ensures |Ids(g)| == |g| && forall i :: 0 <= i < |g| ==> Ids(g)[i] == g[i].id
  {
    if g != [] {
      IdsInOrder(g[1..]);
    }
  }

  lemma RoundedIsBounded(x: real)
    ensures 0.0 <= RoundConfidence(x) <= 1.0
  {
    var y := Min(1.0, Max(0.0, x)) * 100.0 + 0.5;
    assert 0.5 <= y <= 100.5;
    assert 0 <= y.Floor <= 100;
  }

  /******* A pass *******/

  datatype PassResult = PassResult(entries: Entries, patterns: seq<Entry>, superseded: seq<EntryId>, completed: bool)

  // Handle the clusters in turn; a decision that cannot be recorded, or a promotion that fails, ends the pass with an
  // error.
  function PassOver(m: Entries, clusters: seq<Group>, ticks: seq<Tick>, faults: seq<Faults>, engine: Engine): PassResult
    requires engine.Valid() && |clusters| <= |ticks| && |clusters| <= |faults|
    decreases clusters
  {
    if clusters == [] then PassResult(m, [], [], true)
    else if faults[0].decision then PassResult(m, [], [], false)
    else if !Promotes(clusters[0], ticks[0], engine) then PassOver(m, clusters[1..], ticks[1..], faults[1..], engine)
    else
      var pattern := MakePattern(clusters[0], ticks[0], engine);
      var (m', outcome) := Persisted(m, pattern, ticks[0], faults[0]);
      if outcome != Promoted then PassResult(m', [], [], false)
      else
        var rest := PassOver(m', clusters[1..], ticks[1..], faults[1..], engine);
        PassResult(rest.entries, [pattern] + rest.patterns, pattern.sources + rest.superseded, rest.completed)
  }

  // The records of the clusters that were promoted.
  function Taken(clusters: seq<Group>, ticks: seq<Tick>, engine: Engine): set<EntryId>
    requires engine.Valid() && |clusters| <= |ticks|
  {
    if clusters == [] then {}
    else
      (if Promotes(clusters[0], ticks[0], engine) then IdSet(clusters[0]) else {})
      + Taken(clusters[1..], ticks[1..], engine)
  }

  // A pattern id never overwrites anything but a pattern.
  ghost predicate FreshTicks(m: Entries, ticks: seq<Tick>) {
    forall k :: 0 <= k < |ticks| ==> ticks[k].patternId in m ==> m[ticks[k].patternId].kind == DistilledPattern
  }

  // A completed pass takes the records of promoted clusters out of the selection and leaves the rest alone.
  lemma {:induction false} PassSelection(m: Entries, clusters: seq<Group>, ticks: seq<Tick>, faults: seq<Faults>,
                                         engine: Engine, project: Option<ProjectId>, id: EntryId)
    requires engine.Valid() && |clusters| <= |ticks| && |clusters| <= |faults| && FreshTicks(m, ticks)
    requires PassOver(m, clusters, ticks, faults, engine).completed
    ensures var m' := PassOver(m, clusters, ticks, faults, engine).entries;
            && (id in m' && Selected(m'[id], project) <==>
                id in m && Selected(m[id], project) && id !in Taken(clusters, ticks, engine))
            && (id in m' && Selected(m'[id], project) ==> m'[id] == m[id])
    decreases clusters
  {
    if clusters != [] {
      if !Promotes(clusters[0], ticks[0], engine) {
        PassSelection(m, clusters[1..], ticks[1..], faults[1..], engine, project, id);
      } else {
        var pattern := MakePattern(clusters[0], ticks[0], engine);
        var m1 := Persisted(m, pattern, ticks[0], faults[0]).0;
        assert pattern.sources[..|pattern.sources|] == pattern.sources;
        assert m1 == Marked(m[pattern.id := pattern], pattern.sources, pattern.id, ticks[0].markedAt);
        assert FreshTicks(m1, ticks[1..]);
        PassSelection(m1, clusters[1..], ticks[1..], faults[1..], engine, project, id);
        assert id in IdSet(clusters[0]) <==> id in pattern.sources;
      }
    }
  }

  // The k-th cluster is promoted and holds the record.
  predicate TakenBy(clusters: seq<Group>, ticks: seq<Tick>, engine: Engine, id: EntryId, k: nat)
    requires engine.Valid() && k < |clusters| <= |ticks|
  {
    Promotes(clusters[k], ticks[k], engine) && id in IdSet(clusters[k])
  }

  lemma {:induction false} InTaken(clusters: seq<Group>, ticks: seq<Tick>, engine: Engine, id: EntryId, k: nat)
    requires engine.Valid() && k < |clusters| <= |ticks| && TakenBy(clusters, ticks, engine, id, k)
    ensures id in Taken(clusters, ticks, engine)
  {
    if k > 0 {
      var clusters', ticks' := clusters[1..], ticks[1..];
      assert clusters'[k - 1] == clusters[k] && ticks'[k - 1] == ticks[k];
      assert TakenBy(clusters', ticks', engine, id, k - 1);
      InTaken(clusters', ticks', engine, id, k - 1);
    }
  }

  lemma {:induction false} TakerOf(clusters: seq<Group>, ticks: seq<Tick>, engine: Engine, id: EntryId) returns (k: nat)
    requires engine.Valid() && |clusters| <= |ticks| && id in Taken(clusters, ticks, engine)
    ensures k < |clusters| && TakenBy(clusters, ticks, engine, id, k)
  {
    if TakenBy(clusters, ticks, engine, id, 0) {
      k := 0;
    } else {
      var j := TakerOf(clusters[1..], ticks[1..], engine, id);
      assert clusters[1..][j] == clusters[j + 1] && ticks[1..][j] == ticks[j + 1];
      k := j + 1;
    }
  }

  lemma InIdSet(g: Group, r: Entry)
    requires r in g
    ensures r.id in IdSet(g)
  {
    IdsContents(g);
  }

  lemma ClustersAreGroups(config: Config, records: seq<Entry>)
    requires forall r :: r in records ==> Eligible(r)
    ensures forall g :: g in ClusterGroups(config, records) <==> g in Groups(config, records) && |g| >= config.minSize
  {
    FilterAll(Eligible, records);
    FilterContents(LargeEnough(config.minSize), Groups(config, records));
  }

  // The records a pass takes are whole groups of the partition it worked on.
  lemma TakenWholeGroups(records: seq<Entry>, ticks: seq<Tick>, engine: Engine)
    requires engine.Valid() && DistinctIds(records) && forall r :: r in records ==> Eligible(r)
    requires |ClusterGroups(engine.clusters, records)| <= |ticks|
    ensures TakesWholeGroups(Groups(engine.clusters, records),
                             Taken(ClusterGroups(engine.clusters, records), ticks, engine))
  {
    var clusters := ClusterGroups(engine.clusters, records);
    var taken := Taken(clusters, ticks, engine);
    ClustersAreGroups(engine.clusters, records);
    forall g, r | g in Groups(engine.clusters, records) && r in g && r.id in taken ensures Gone(g, taken) {
      var k := TakerOf(clusters, ticks, engine, r.id);
      IdsContents(clusters[k]);
      var q: Entry :| q in clusters[k] && q.id == r.id;
      GroupsMeetOnlyThemselves(engine.clusters, records, g, clusters[k], r, q);
      forall x | x in g ensures x.id in taken {
        InIdSet(g, x);
        InTaken(clusters, ticks, engine, x.id, k);
      }
    }
  }

  // What the next pass reads is what this one read, less the records it took.
  lemma SecondReading(m: Entries, records: seq<Entry>, ticks: seq<Tick>, faults: seq<Faults>, engine: Engine,
                      project: Option<ProjectId>, records': seq<Entry>)
    requires engine.Valid() && Keyed(m) && IsQueryResult(m, project, records) && FreshTicks(m, ticks)
    requires var clusters := ClusterGroups(engine.clusters, records); |clusters| <= |ticks| && |clusters| <= |faults|
    requires PassOver(m, ClusterGroups(engine.clusters, records), ticks, faults, engine).completed
    requires IsQueryResult(PassOver(m, ClusterGroups(engine.clusters, records), ticks, faults, engine).entries, project,
                           records')
    ensures var taken := Taken(ClusterGroups(engine.clusters, records), ticks, engine);
            multiset(records') == multiset(Filter(Outside(taken), records))
  {
    var clusters := ClusterGroups(engine.clusters, records);
    var taken := Taken(clusters, ticks, engine);
    FilterContents(Outside(taken), records);
    forall r ensures r in records' <==> r in Filter(Outside(taken), records) {
      PassSelection(m, clusters, ticks, faults, engine, project, r.id);
    }
    FilterDistinct(Outside(taken), records);
    SameMembers(records', Filter(Outside(taken), records));
  }

  // Every decision on the first n clusters is recorded.
  predicate Recorded(faults: seq<Faults>, n: nat)
    requires n <= |faults|
  {
    forall k :: 0 <= k < n ==> !faults[k].decision
  }

  lemma {:induction false} NothingPromoted(m: Entries, clusters: seq<Group>, ticks: seq<Tick>, faults: seq<Faults>,
                                           engine: Engine)
    requires engine.Valid() && |clusters| <= |ticks| && |clusters| <= |faults|
    requires forall k :: 0 <= k < |clusters| ==> !Promotes(clusters[k], ticks[k], engine)
    ensures PassOver(m, clusters, ticks, faults, engine) == PassResult(m, [], [], Recorded(faults, |clusters|))
    decreases clusters
  {
    if clusters != [] {
      assert !Promotes(clusters[0], ticks[0], engine);
      if !faults[0].decision {
        forall k | 0 <= k < |clusters| - 1 ensures !Promotes(clusters[1..][k], ticks[1..][k], engine) {
          assert !Promotes(clusters[k + 1], ticks[k + 1], engine);
        }
        NothingPromoted(m, clusters[1..], ticks[1..], faults[1..], engine);
        assert forall k :: 0 <= k < |clusters| - 1 ==> faults[1..][k] == faults[k + 1];
        assert forall k :: 0 < k < |clusters| ==> faults[k] == faults[1..][k - 1];
      }
    }
  }

  // A group that survived a pass was held by it, and time only makes it staler.
  lemma SurvivorStaysHeld(clusters: seq<Group>, ticks: seq<Tick>, engine: Engine, g: Group, later: Tick)
    requires engine.Valid() && |clusters| <= |ticks| && g in clusters && Untouched(g, Taken(clusters, ticks, engine))
    requires forall k :: 0 <= k < |ticks| ==> ticks[k].referenceAt <= later.referenceAt
    ensures !Promotes(g, later, engine)
  {
    var k :| 0 <= k < |clusters| && clusters[k] == g;
    if Promotes(g, later, engine) {
      DecisionIsMonotone(g, ticks[k].referenceAt, later.referenceAt, engine.signals, engine.lifecycle);
      assert Promotes(g, ticks[k], engine);
      InIdSet(g, g[0]);
      InTaken(clusters, ticks, engine, g[0].id, k);
    }
  }

  // A distillation pass reaches a fixpoint: after a pass that ended without error, a second pass over the
  // same selection at any later time, with nothing written in between, creates no pattern, supersedes
  // nothing and leaves the store as it is, whatever fails. For every clustering strategy.
  lemma PassReachesFixpoint(m: Entries, records: seq<Entry>, ticks: seq<Tick>, faults: seq<Faults>, engine: Engine,
                            project: Option<ProjectId>, records': seq<Entry>, ticks': seq<Tick>, faults': seq<Faults>)
    requires engine.Valid() && Keyed(m) && IsQueryResult(m, project, records) && FreshTicks(m, ticks)
    requires var clusters := ClusterGroups(engine.clusters, records); |clusters| <= |ticks| && |clusters| <= |faults|
    requires PassOver(m, ClusterGroups(engine.clusters, records), ticks, faults, engine).completed
    requires IsQueryResult(PassOver(m, ClusterGroups(engine.clusters, records), ticks, faults, engine).entries, project,
                           records')
    requires var clusters' := ClusterGroups(engine.clusters, records');
             |clusters'| <= |ticks'| && |clusters'| <= |faults'|
    requires forall i, j :: 0 <= i < |ticks| && 0 <= j < |ticks'| ==> ticks[i].referenceAt <= ticks'[j].referenceAt
    ensures var m' := PassOver(m, ClusterGroups(engine.clusters, records), ticks, faults, engine).entries;
            var clusters' := ClusterGroups(engine.clusters, records');
            PassOver(m', clusters', ticks', faults', engine) == PassResult(m', [], [], Recorded(faults', |clusters'|))
  {
    var clusters, clusters' := ClusterGroups(engine.clusters, records), ClusterGroups(engine.clusters, records');
    var m' := PassOver(m, clusters, ticks, faults, engine).entries;
    SecondReading(m, records, ticks, faults, engine, project, records');
    TakenWholeGroups(records, ticks, engine);
    GroupsSurvive(engine.clusters, records, records', Taken(clusters, ticks, engine));
    ClustersAreGroups(engine.clusters, records);
    ClustersAreGroups(engine.clusters, records');
    forall k | 0 <= k < |clusters'| ensures !Promotes(clusters'[k], ticks'[k], engine) {
      assert clusters'[k] in clusters';
      SurvivorStaysHeld(clusters, ticks, engine, clusters'[k], ticks'[k]);
    }
    NothingPromoted(m', clusters', ticks', faults', engine);
  }

  /******* Reversal *******/

  datatype ReversalResult = Reversed(entries: Entries) | PatternNotFound | NoSources | Interrupted(entries: Entries)

  // Every listed entry that exists is made active again, whatever has become of it.
  function Reactivated(m: Entries, ids: seq<EntryId>, clock: nat -> Time): Entries {
    if ids == [] then m
    else
      var n := |ids| - 1;
      var before := Reactivated(m, ids[..n], clock);
      if ids[n] in before then before[ids[n] := RestoredEntry(before[ids[n]], clock(n))] else before
  }

  // Each id once, in order of first appearance.
  function Unique(ids: seq<EntryId>): (r: seq<EntryId>)
    ensures forall id :: id in r <==> id in ids
  {
    if ids == [] then []
    else
      var n := |ids| - 1;
      var before := Unique(ids[..n]);
      assert ids == ids[..n] + [ids[n]];
      if ids[n] in before then before else before + [ids[n]]
  }

  // The pattern as it was read at the start is written back as superseded.
  function Reverse(m: Entries, pattern: EntryId, clock: nat -> Time): ReversalResult {
    if pattern !in m || m[pattern].kind != DistilledPattern then PatternNotFound
    else
      var ids := Unique(m[pattern].sources);
      if ids == [] then NoSources
      else Reversed(Reactivated(m, ids, clock)[pattern := m[pattern].(status := Superseded, updatedAt := clock(|ids|))])
  }

  // A write that fails interrupts the reversal, and so does an observer after the last one; there is no compensation.
  function ReverseUntil(m: Entries, pattern: EntryId, clock: nat -> Time, failAfter: Option<nat>): ReversalResult {
    var whole := Reverse(m, pattern, clock);
    if !whole.Reversed? || failAfter.None? then whole
    else
      var ids := Unique(m[pattern].sources);
      if failAfter.value <= |ids| then Interrupted(Reactivated(m, ids[..failAfter.value], clock))
      else Interrupted(whole.entries)
  }

  // What a reversal refuses: an id that names no pattern, and a pattern that names no sources.
  lemma ReversalRefusedExactly(m: Entries, pattern: EntryId, clock: nat -> Time)
    ensures Reverse(m, pattern, clock) == PatternNotFound <==> pattern !in m || m[pattern].kind != DistilledPattern
    ensures Reverse(m, pattern, clock) == NoSources <==>
              pattern in m && m[pattern].kind == DistilledPattern && m[pattern].sources == []
  {
    if pattern in m && m[pattern].sources != [] {
      assert m[pattern].sources[0] in Unique(m[pattern].sources);
    }
  }

  lemma {:induction false} ReactivatedAt(m: Entries, ids: seq<EntryId>, clock: nat -> Time, id: EntryId)
    ensures id in Reactivated(m, ids, clock) <==> id in m
    ensures id in m ==> var e := Reactivated(m, ids, clock)[id];
                        e == if id in ids then RestoredEntry(m[id], e.updatedAt) else m[id]
  {
    if ids != [] {
      var n := |ids| - 1;
      ReactivatedAt(m, ids[..n], clock, id);
      assert ids == ids[..n] + [ids[n]];
    }
  }

  // What reversal does to every entry: sources become active without a successor, the pattern is retired,
  // nothing else changes and nothing appears or disappears.
  lemma ReverseContents(m: Entries, pattern: EntryId, clock: nat -> Time)
    requires Reverse(m, pattern, clock).Reversed? && pattern !in m[pattern].sources
    ensures var m' := Reverse(m, pattern, clock).entries; var sources := m[pattern].sources;
            && m'.Keys == m.Keys
            && (forall id :: id in m && id in sources ==> m'[id] == RestoredEntry(m[id], m'[id].updatedAt))
            && m'[pattern] == m[pattern].(status := Superseded, updatedAt := m'[pattern].updatedAt)
            && (forall id :: id in m && id !in sources && id != pattern ==> m'[id] == m[id])
  {
    var ids := Unique(m[pattern].sources);
    forall id ensures id in Reactivated(m, ids, clock) <==> id in m
              ensures id in m ==> var e := Reactivated(m, ids, clock)[id];
                                  e == if id in ids then RestoredEntry(m[id], e.updatedAt) else m[id]
    {
      ReactivatedAt(m, ids, clock, id);
    }
  }

  lemma {:induction false} UniqueIsDistinct(ids: seq<EntryId>)
    ensures Distinct(Unique(ids))
  {
    if ids != [] {
      UniqueIsDistinct(ids[..|ids| - 1]);
    }
  }

  // The list names each id once, in the order in which they first appear.
  lemma {:induction false} UniqueInOrder(ids: seq<EntryId>, i: nat, j: nat) returns (p: nat)
    requires i < j < |Unique(ids)|
    ensures Unique(ids)[i] != Unique(ids)[j]
    ensures p < |ids| && ids[p] == Unique(ids)[i] && forall q :: 0 <= q <= p ==> ids[q] != Unique(ids)[j]
  {
    UniqueIsDistinct(ids);
    var n := |ids| - 1;
    var before := ids[..n];
    if j < |Unique(before)| {
      p := UniqueInOrder(before, i, j);
    } else {
      assert Unique(ids)[i] == Unique(before)[i] && Unique(before)[i] in before;
      p :| 0 <= p < n && before[p] == Unique(before)[i];
      forall q | 0 <= q <= p ensures ids[q] != Unique(ids)[j] {
        assert before[q] == ids[q] && before[q] in before;
      }
    }
  }

  lemma {:induction false} ReactivatedTouch(m: Entries, ids: seq<EntryId>, clock: nat -> Time, i: nat)
    requires Distinct(ids) && i < |ids| && ids[i] in m
    ensures ids[i] in Reactivated(m, ids, clock) && Reactivated(m, ids, clock)[ids[i]].updatedAt == clock(i)
  {
    var n := |ids| - 1;
    ReactivatedAt(m, ids[..n], clock, ids[i]);
    if i < n {
      ReactivatedTouch(m, ids[..n], clock, i);
    }
  }

  // When a reversal touches what: the sources one reading of the clock after the other, in the order of the list, and
  // the pattern last.
  lemma ReversalTouches(m: Entries, pattern: EntryId, clock: nat -> Time, i: nat)
    requires Reverse(m, pattern, clock).Reversed? && pattern !in m[pattern].sources
    requires i < |Unique(m[pattern].sources)| && Unique(m[pattern].sources)[i] in m
    ensures
      var ids, m' := Unique(m[pattern].sources), Reverse(m, pattern, clock).entries;
      && ids[i] in m' && m'[ids[i]].status == Active && m'[ids[i]].supersededBy.None?
      && m'[ids[i]].updatedAt == clock(i) && m'[pattern].updatedAt == clock(|ids|)
  {
    var ids := Unique(m[pattern].sources);
    UniqueIsDistinct(m[pattern].sources);
    ReactivatedTouch(m, ids, clock, i);
    ReactivatedAt(m, ids, clock, ids[i]);
    assert ids[i] != pattern;
  }

  // Promote, then reverse. The promotion went from before to promoted; now is any later state in which the
  // pattern is as it was written. Reversal gives a source back its value from before the promotion, but for
  // the touch time, exactly when nothing but its status, successor and touch time has changed meanwhile.
  lemma RoundTrip(before: Entries, pattern: Entry, tick: Tick, faults: Faults, now: Entries, clock: nat -> Time,
                  id: EntryId)
    requires FreshPattern(before, pattern) && ActiveWithoutSuccessor(before, pattern.sources)
    requires pattern.kind == DistilledPattern && Storable(pattern)
    requires Persisted(before, pattern, tick, faults).1 == Promoted
    requires pattern.id in now && now[pattern.id] == Persisted(before, pattern, tick, faults).0[pattern.id]
    requires id in before && id in now && id in pattern.sources
    ensures Reverse(now, pattern.id, clock).Reversed?
    ensures var after, promoted := Reverse(now, pattern.id, clock).entries, Persisted(before, pattern, tick, faults).0;
            && id in after && pattern.id in after && after[pattern.id].status != Active
            && (SameButTouched(before[id], after[id]) <==>
                now[id].(status := Superseded, supersededBy := Some(pattern.id), updatedAt := tick.markedAt) ==
                  promoted[id])
  {
    var sources := pattern.sources;
    assert sources[..|sources|] == sources && sources[0] in Unique(sources);
    ReverseContents(now, pattern.id, clock);
  }

  lemma PromotedIsReversible(before: Entries, pattern: Entry, tick: Tick, faults: Faults, clock: nat -> Time)
    requires FreshPattern(before, pattern) && ActiveWithoutSuccessor(before, pattern.sources)
    requires pattern.kind == DistilledPattern && Storable(pattern)
    requires Persisted(before, pattern, tick, faults).1 == Promoted
    ensures Reverse(Persisted(before, pattern, tick, faults).0, pattern.id, clock).Reversed?
  {
    PromotionApplies(before, pattern, tick, faults);
    assert pattern.sources[0] in Unique(pattern.sources);
  }

  // The undisturbed round trip: straight after a promotion, reversal restores every entry up to touch times
  // and leaves the retired pattern behind.
  lemma UndisturbedRoundTrip(before: Entries, pattern: Entry, tick: Tick, faults: Faults, clock: nat -> Time)
    requires FreshPattern(before, pattern) && ActiveWithoutSuccessor(before, pattern.sources)
    requires pattern.kind == DistilledPattern && Storable(pattern)
    requires Persisted(before, pattern, tick, faults).1 == Promoted
    ensures Reverse(Persisted(before, pattern, tick, faults).0, pattern.id, clock).Reversed?
    ensures var after := Reverse(Persisted(before, pattern, tick, faults).0, pattern.id, clock).entries;
            && SameExceptTouched(before, after - {pattern.id}, set id | id in pattern.sources)
            && pattern.id in after
               && after[pattern.id] == pattern.(status := Superseded, updatedAt := after[pattern.id].updatedAt)
  {
    var promoted := Persisted(before, pattern, tick, faults).0;
    PromotionApplies(before, pattern, tick, faults);
    PromotedIsReversible(before, pattern, tick, faults, clock);
    RestoresAll(before, pattern, promoted, tick.markedAt, clock);
  }

  lemma RestoresAll(before: Entries, pattern: Entry, promoted: Entries, markedAt: Time, clock: nat -> Time)
    requires FreshPattern(before, pattern) && ActiveWithoutSuccessor(before, pattern.sources)
    requires promoted.Keys == before.Keys + {pattern.id} && promoted[pattern.id] == pattern
    requires forall id :: id in before ==>
      promoted[id] == if id in pattern.sources then MarkedEntry(before[id], pattern.id, markedAt) else before[id]
    requires Reverse(promoted, pattern.id, clock).Reversed?
    ensures var after := Reverse(promoted, pattern.id, clock).entries;
            && SameExceptTouched(before, after - {pattern.id}, set id | id in pattern.sources)
            && pattern.id in after
               && after[pattern.id] == pattern.(status := Superseded, updatedAt := after[pattern.id].updatedAt)
  {
    ReverseContents(promoted, pattern.id, clock);
    var after := Reverse(promoted, pattern.id, clock).entries;
    forall id | id in before
      ensures if id in pattern.sources then SameButTouched(before[id], after[id]) else after[id] == before[id]
    {
    }
  }

  // Reversing again changes touch times only, if nothing was written in between.
  lemma ReverseTwice(m: Entries, pattern: EntryId, clock: nat -> Time, clock': nat -> Time)
    requires Reverse(m, pattern, clock).Reversed? && pattern !in m[pattern].sources
    ensures var m' := Reverse(m, pattern, clock).entries;
            && Reverse(m', pattern, clock').Reversed?
            && SameExceptTouched(m', Reverse(m', pattern, clock').entries,
                                 (set id | id in m[pattern].sources) + {pattern})
  {
    ReverseContents(m, pattern, clock);
    ReverseContents(Reverse(m, pattern, clock).entries, pattern, clock');
  }

  // What an interruption before the last write has done to an entry: nothing, or its part of the reversal.
  lemma PartialReversal(m: Entries, pattern: EntryId, clock: nat -> Time, n: nat, id: EntryId)
    requires Reverse(m, pattern, clock).Reversed? && n <= |Unique(m[pattern].sources)|
    ensures
      var partial := Reactivated(m, Unique(m[pattern].sources)[..n], clock);
      && (id in partial <==> id in m)
      && (id in m && id !in m[pattern].sources ==> partial[id] == m[id])
      && (id in m ==> RestoredEntry(partial[id], 0) == RestoredEntry(m[id], 0))
  {
    var ids := Unique(m[pattern].sources);
    ReactivatedAt(m, ids[..n], clock, id);
    assert id in ids[..n] ==> id in ids;
  }

  // An interrupted reversal is completed by repeating it: whatever failed, the repeated reversal ends, up to touch
  // times, where an uninterrupted one would have.
  lemma RepeatingCompletes(m: Entries, pattern: EntryId, clock: nat -> Time, clock': nat -> Time, failAfter: nat)
    requires ReverseUntil(m, pattern, clock, Some(failAfter)).Interrupted? && pattern !in m[pattern].sources
    ensures
      var partial := ReverseUntil(m, pattern, clock, Some(failAfter)).entries;
      && Reverse(partial, pattern, clock').Reversed?
      && SameExceptTouched(Reverse(m, pattern, clock).entries, Reverse(partial, pattern, clock').entries,
                           (set id | id in m[pattern].sources) + {pattern})
  {
    if failAfter > |Unique(m[pattern].sources)| {
      ReverseTwice(m, pattern, clock, clock');
    } else {
      RepeatingCompletesPart(m, pattern, clock, clock', failAfter);
    }
  }

  lemma RepeatingCompletesPart(m: Entries, pattern: EntryId, clock: nat -> Time, clock': nat -> Time, n: nat)
    requires Reverse(m, pattern, clock).Reversed? && pattern !in m[pattern].sources && n <= |Unique(m[pattern].sources)|
    ensures
      var partial := Reactivated(m, Unique(m[pattern].sources)[..n], clock);
      && Reverse(partial, pattern, clock').Reversed?
      && SameExceptTouched(Reverse(m, pattern, clock).entries, Reverse(partial, pattern, clock').entries,
                           (set id | id in m[pattern].sources) + {pattern})
  {
    var partial := Reactivated(m, Unique(m[pattern].sources)[..n], clock);
    forall id: EntryId
      ensures id in partial <==> id in m
      ensures id in m && id !in m[pattern].sources ==> partial[id] == m[id]
      ensures id in m ==> RestoredEntry(partial[id], 0) == RestoredEntry(m[id], 0)
    {
      PartialReversal(m, pattern, clock, n, id);
    }
    assert partial[pattern] == m[pattern];
    ReverseContents(m, pattern, clock);
    ReverseContents(partial, pattern, clock');
    var whole, again := Reverse(m, pattern, clock).entries, Reverse(partial, pattern, clock').entries;
    forall id | id in m && id in m[pattern].sources ensures SameButTouched(whole[id], again[id]) {
      assert whole[id] == RestoredEntry(m[id], whole[id].updatedAt);
      assert again[id] == RestoredEntry(partial[id], again[id].updatedAt);
    }
  }

  predicate Deleted(e: Entry) {
    e.status == SoftDeleted || e.status == HardDeleted
  }

  predicate BecomesActive(m: Entries, id: EntryId) {
    id in m && m[id].status == Active
  }

  // Reversal brings deleted entries back exactly when the pattern names one among its sources: it does not
  // look at what has happened to a source since the promotion.
  lemma ReversalRevivesExactly(m: Entries, pattern: EntryId, clock: nat -> Time)
    requires Reverse(m, pattern, clock).Reversed? && pattern !in m[pattern].sources
    ensures (exists id :: id in m && Deleted(m[id]) && BecomesActive(Reverse(m, pattern, clock).entries, id))
       <==> (exists id :: id in m && Deleted(m[id]) && id in m[pattern].sources)
  {
    ReverseContents(m, pattern, clock);
    var m' := Reverse(m, pattern, clock).entries;
    forall id | id in m && Deleted(m[id]) ensures BecomesActive(m', id) <==> id in m[pattern].sources {
    }
  }

  function Record(id: EntryId, status: Status, successor: Option<EntryId>): Entry {
    Entry(id, ExperienceRecord, "met", Project, Some(0), 1.0, StrongPositive, id, {}, 0, 0, EvidenceImmutable, status,
          successor, if status == SoftDeleted then Some(1) else None, None, ProjectPlacement, None, [])
  }

  function Pattern(id: EntryId, source: EntryId): Entry {
    Entry(id, DistilledPattern, "kept", Project, Some(0), 0.6, Neutral, id, {}, 0, 0, DomainVersioned, Active,
          None, None, None, ProjectPlacement, None, [source])
  }

  // A record that was soft-deleted after its promotion is active again after the reversal.
  lemma ReversalRevivesDeleted() returns (m: Entries, pattern: EntryId, clock: nat -> Time, id: EntryId)
    ensures Reverse(m, pattern, clock).Reversed? && id in m && m[id].status == SoftDeleted
    ensures id in Reverse(m, pattern, clock).entries && Reverse(m, pattern, clock).entries[id].status == Active
  {
    id, pattern, clock := 1, 2, k => 3;
    var record, made := Record(1, SoftDeleted, Some(2)), Pattern(2, 1);
    m := map[1 := record, 2 := made];
    assert m[2] == made && m[1] == record;
    ReversalReachesSource(m, 1, 2, clock);
  }

  lemma ReversalReachesSource(m: Entries, id: EntryId, pattern: EntryId, clock: nat -> Time)
    requires pattern in m && m[pattern].kind == DistilledPattern && id in m && id in m[pattern].sources
    requires pattern !in m[pattern].sources
    ensures Reverse(m, pattern, clock).Reversed?
    ensures id in Reverse(m, pattern, clock).entries && Reverse(m, pattern, clock).entries[id].status == Active
  {
    assert id in Unique(m[pattern].sources);
    ReverseContents(m, pattern, clock);
  }

  // An observer that throws right after the pattern was written leaves it, beside the active record it was made from.
  lemma PatternIsStranded() returns (m: Entries, pattern: Entry, tick: Tick, faults: Faults)
    ensures FreshPattern(m, pattern) && Storable(pattern) && ActiveWithoutSuccessor(m, pattern.sources)
    ensures var (after, outcome) := Persisted(m, pattern, tick, faults);
            && outcome != Promoted && after == m[pattern.id := pattern] != m
            && forall id :: id in pattern.sources ==> id in after && after[id].status == Active
  {
    m, pattern := map[1 := Record(1, Active, None)], Pattern(2, 1);
    tick := Tick(3, 2, 2, 3, 3, k => 3);
    faults := Faults(false, false, true, None, false, false, None, false);
    assert 2 in m[2 := pattern];
  }

  // A reversal does not last: a promoted cluster whose records were given back is promoted again by the next
  // pass that finds it together, as long as its latest touch is not yet aging.
  lemma ReversedClusterPromotesAgain(g: Group, g': Group, tick: Tick, tick': Tick, engine: Engine)
    requires engine.Valid() && Promotes(g, tick, engine)
    requires |g'| == |g| && forall i :: 0 <= i < |g| ==> SameButTouched(g[i], g'[i])
    requires (tick'.referenceAt - Latest(g')) / DAY_MS < engine.signals.agingDays
    ensures Promotes(g', tick', engine)
  {
    SameCounts(g, g', Positive);
    SameCounts(g, g', Negative);
    SameCounts(g, g', NeutralClass);
    PromotedExactly(g, tick.referenceAt, engine.signals, engine.lifecycle);
    PromotedExactly(g', tick'.referenceAt, engine.signals, engine.lifecycle);
  }

  lemma {:induction false} SameCounts(g: Group, g': Group, c: Class)
    requires |g'| == |g| && forall i :: 0 <= i < |g| ==> SameButTouched(g[i], g'[i])
    ensures CountClass(g, c) == CountClass(g', c)
  {
    if g != [] {
      var n := |g| - 1;
      assert SameButTouched(g[n], g'[n]);
      SameCounts(g[..n], g'[..n], c);
    }
  }

  /******* A pass that throws *******/

  // Pattern of the k-th cluster, if it is promoted.
  function PatternOf(clusters: seq<Group>, ticks: seq<Tick>, k: nat, engine: Engine): Entry
    requires engine.Valid() && k < |clusters| <= |ticks| && clusters[k] != []
  {
    MakePattern(clusters[k], ticks[k], engine)
  }

  // The clusters still to come have active sources, pattern ids nobody uses, and no record in common.
  ghost predicate Ready(m: Entries, clusters: seq<Group>, ticks: seq<Tick>, engine: Engine)
    requires engine.Valid() && |clusters| <= |ticks|
  {
    && (forall k :: 0 <= k < |clusters| ==> clusters[k] != [])
    && (forall k :: 0 <= k < |clusters| ==> FreshPattern(m, PatternOf(clusters, ticks, k, engine)))
    && (forall k :: 0 <= k < |clusters| ==> ActiveWithoutSuccessor(m, Ids(clusters[k])))
    && (forall j, k :: 0 <= j < k < |clusters| ==>
        ticks[j].patternId != ticks[k].patternId && IdSet(clusters[j]) !! IdSet(clusters[k]))
    && (forall j, k :: 0 <= j < |clusters| && 0 <= k < |clusters| ==> ticks[j].patternId !in IdSet(clusters[k]))
  }

  // A promotion leaves another pattern, that shares no source with it, as ready as it was.
  lemma StaysReady(m: Entries, p: Entry, q: Entry, tick: Tick, faults: Faults)
    requires FreshPattern(m, p) && p.supersededBy.None? && Persisted(m, p, tick, faults).1 == Promoted
    requires FreshPattern(m, q) && ActiveWithoutSuccessor(m, q.sources) && q.id != p.id && p.id !in q.sources
    requires forall id :: id in q.sources ==> id !in p.sources
    ensures var m' := Persisted(m, p, tick, faults).0; FreshPattern(m', q) && ActiveWithoutSuccessor(m', q.sources)
  {
    PromotionApplies(m, p, tick, faults);
  }

  lemma ReadyAfterPromotion(m: Entries, clusters: seq<Group>, ticks: seq<Tick>, faults: Faults, engine: Engine)
    requires engine.Valid() && 0 < |clusters| <= |ticks| && Ready(m, clusters, ticks, engine)
    requires Persisted(m, PatternOf(clusters, ticks, 0, engine), ticks[0], faults).1 == Promoted
    ensures Ready(Persisted(m, PatternOf(clusters, ticks, 0, engine), ticks[0], faults).0, clusters[1..], ticks[1..],
                  engine)
  {
    var pattern := PatternOf(clusters, ticks, 0, engine);
    var m' := Persisted(m, pattern, ticks[0], faults).0;
    forall k | 0 <= k < |clusters| - 1
      ensures clusters[1..][k] != []
      ensures FreshPattern(m', PatternOf(clusters[1..], ticks[1..], k, engine))
      ensures ActiveWithoutSuccessor(m', Ids(clusters[1..][k]))
    {
      assert clusters[1..][k] == clusters[k + 1] && ticks[1..][k] == ticks[k + 1];
      var next := PatternOf(clusters, ticks, k + 1, engine);
      assert FreshPattern(m, next) && ActiveWithoutSuccessor(m, Ids(clusters[k + 1]));
      assert IdSet(clusters[0]) !! IdSet(clusters[k + 1]) && ticks[0].patternId !in IdSet(clusters[k + 1]);
      assert forall id :: id in next.sources ==> id in IdSet(clusters[k + 1]);
      assert forall id :: id in pattern.sources ==> id in IdSet(clusters[0]);
      StaysReady(m, pattern, next, ticks[0], faults);
    }
    ReadyTail(clusters, ticks, engine);
  }

  lemma ReadyTail(clusters: seq<Group>, ticks: seq<Tick>, engine: Engine)
    requires engine.Valid() && 0 < |clusters| <= |ticks|
    requires forall j, k :: 0 <= j < k < |clusters| ==>
             ticks[j].patternId != ticks[k].patternId && IdSet(clusters[j]) !! IdSet(clusters[k])
    requires forall j, k :: 0 <= j < |clusters| && 0 <= k < |clusters| ==> ticks[j].patternId !in IdSet(clusters[k])
    ensures var cs, ts := clusters[1..], ticks[1..];
            && (forall j, k :: 0 <= j < k < |cs| ==> ts[j].patternId != ts[k].patternId && IdSet(cs[j]) !! IdSet(cs[k]))
            && (forall j, k :: 0 <= j < |cs| && 0 <= k < |cs| ==> ts[j].patternId !in IdSet(cs[k]))
  {
    assert forall k :: 0 <= k < |clusters| - 1 ==> clusters[1..][k] == clusters[k + 1] && ticks[1..][k] == ticks[k + 1];
  }

  lemma ReadyAfterSkip(m: Entries, clusters: seq<Group>, ticks: seq<Tick>, engine: Engine)
    requires engine.Valid() && 0 < |clusters| <= |ticks| && Ready(m, clusters, ticks, engine)
    ensures Ready(m, clusters[1..], ticks[1..], engine)
  {
    ReadyTail(clusters, ticks, engine);
    forall k | 0 <= k < |clusters| - 1
      ensures clusters[1..][k] != []
      ensures FreshPattern(m, PatternOf(clusters[1..], ticks[1..], k, engine))
      ensures ActiveWithoutSuccessor(m, Ids(clusters[1..][k]))
    {
      assert clusters[1..][k] == clusters[k + 1] && ticks[1..][k] == ticks[k + 1];
      assert FreshPattern(m, PatternOf(clusters, ticks, k + 1, engine))
        && ActiveWithoutSuccessor(m, Ids(clusters[k + 1]));
    }
  }

  // Where the failure happens: the first promoted cluster fails, or the failure lies in the rest of the pass.
  lemma FirstClusterFails(m: Entries, clusters: seq<Group>, ticks: seq<Tick>, faults: seq<Faults>, engine: Engine)
    requires engine.Valid() && 0 < |clusters| <= |ticks| && |clusters| <= |faults| && Ready(m, clusters, ticks, engine)
    requires faults[0].CompensationWorks() && !faults[0].decision && Promotes(clusters[0], ticks[0], engine)
    requires Persisted(m, PatternOf(clusters, ticks, 0, engine), ticks[0], faults[0]).1 != Promoted
    ensures PassOver(m, clusters[..0], ticks, faults, engine) == PassResult(m, [], [], true)
    ensures SameExceptTouched(m, PassOver(m, clusters, ticks, faults, engine).entries, IdSet(clusters[0]))
  {
    assert clusters[..0] == [];
    var pattern := PatternOf(clusters, ticks, 0, engine);
    assert FreshPattern(m, pattern) && ActiveWithoutSuccessor(m, Ids(clusters[0]));
    IdsContents(clusters[0]);
    PromotionIsAtomic(m, pattern, ticks[0], faults[0]);
    assert IdSet(clusters[0]) == set id | id in pattern.sources;
  }

  lemma UnfoldPrefix(m: Entries, clusters: seq<Group>, n: nat, ticks: seq<Tick>, faults: seq<Faults>, engine: Engine)
    requires engine.Valid() && n < |clusters| && |clusters| <= |ticks| && |clusters| <= |faults| && !faults[0].decision
    requires Promotes(clusters[0], ticks[0], engine) ==>
               Persisted(m, PatternOf(clusters, ticks, 0, engine), ticks[0], faults[0]).1 == Promoted
    ensures var m' := if Promotes(clusters[0], ticks[0], engine)
                      then Persisted(m, PatternOf(clusters, ticks, 0, engine), ticks[0], faults[0]).0 else m;
            var kept, rest := PassOver(m, clusters[..n + 1], ticks, faults, engine),
              PassOver(m', clusters[1..][..n], ticks[1..], faults[1..], engine);
            kept.entries == rest.entries && kept.completed == rest.completed
  {
    assert clusters[..n + 1][0] == clusters[0] && clusters[..n + 1][1..] == clusters[1..][..n];
  }

  // A pass that ends with an error leaves whole promotions only: with working compensation its store is that
  // of a completed pass over the clusters before the one that failed, up to touch times.
  lemma {:induction false} FailedPassKeepsWholePromotions(m: Entries, clusters: seq<Group>, ticks: seq<Tick>,
                                                          faults: seq<Faults>, engine: Engine)
    returns (n: nat)
    requires engine.Valid() && |clusters| <= |ticks| && |clusters| <= |faults| && Ready(m, clusters, ticks, engine)
    requires forall k :: 0 <= k < |clusters| ==> faults[k].CompensationWorks()
    requires !PassOver(m, clusters, ticks, faults, engine).completed
    ensures n < |clusters|
    ensures var kept := PassOver(m, clusters[..n], ticks, faults, engine);
            kept.completed
              && SameExceptTouched(kept.entries, PassOver(m, clusters, ticks, faults, engine).entries,
                                   IdSet(clusters[n]))
    decreases clusters
  {
    var promotes := Promotes(clusters[0], ticks[0], engine);
    if faults[0].decision {
      n := 0;
      assert clusters[..0] == [];
    } else if promotes && Persisted(m, PatternOf(clusters, ticks, 0, engine), ticks[0], faults[0]).1 != Promoted {
      n := 0;
      FirstClusterFails(m, clusters, ticks, faults, engine);
    } else {
      var m' := if promotes then Persisted(m, PatternOf(clusters, ticks, 0, engine), ticks[0], faults[0]).0 else m;
      assert Ready(m', clusters[1..], ticks[1..], engine) by {
        if promotes {
          ReadyAfterPromotion(m, clusters, ticks, faults[0], engine);
        } else {
          ReadyAfterSkip(m, clusters, ticks, engine);
        }
      }
      var n' := FailedPassKeepsWholePromotions(m', clusters[1..], ticks[1..], faults[1..], engine);
      n := n' + 1;
      UnfoldPrefix(m, clusters, n', ticks, faults, engine);
    }
  }

  ghost predicate Apart(groups: seq<Group>) {
    forall i: nat, j: nat, r: Entry, q: Entry :: 0 <= i < j < |groups| && r in groups[i] && q in groups[j] ==>
      r.id != q.id
  }

  lemma {:induction false} FilterApart(p: Group -> bool, groups: seq<Group>)
    requires Apart(groups)
    ensures Apart(Filter(p, groups))
  {
    if groups != [] {
      var rest := groups[1..];
      assert forall i :: 0 <= i < |rest| ==> rest[i] == groups[i + 1];
      FilterApart(p, rest);
      FilterContents(p, rest);
      var kept := Filter(p, rest);
      forall k: nat, r: Entry, q: Entry | 0 <= k < |kept| && r in groups[0] && q in kept[k] ensures r.id != q.id {
        assert kept[k] in rest;
        var i :| 0 <= i < |rest| && rest[i] == kept[k];
        assert groups[i + 1] == kept[k];
      }
    }
  }

  lemma ClustersApart(config: Config, records: seq<Entry>)
    requires DistinctIds(records) && forall r :: r in records ==> Eligible(r)
    ensures Apart(ClusterGroups(config, records))
  {
    FilterAll(Eligible, records);
    var groups := Groups(config, records);
    GroupsPartition(config, records);
    SameElementsDistinct(records, Flatten(groups));
    forall i: nat, j: nat, r: Entry, q: Entry | 0 <= i < j < |groups| && r in groups[i] && q in groups[j]
      ensures r.id != q.id
    {
      GroupsDisjoint(groups, i, j, r, q);
    }
    FilterApart(LargeEnough(config.minSize), groups);
  }

  // The id factory yields ids that are new to the store, each once.
  ghost predicate FreshSupply(m: Entries, ticks: seq<Tick>) {
    && (forall k :: 0 <= k < |ticks| ==>
        ticks[k].patternId !in m && (forall id :: id in m ==> m[id].supersededBy != Some(ticks[k].patternId)))
    && (forall j, k :: 0 <= j < k < |ticks| ==> ticks[j].patternId != ticks[k].patternId)
  }

  lemma ClusterIds(m: Entries, records: seq<Entry>, project: Option<ProjectId>, config: Config, g: Group)
    requires IsQueryResult(m, project, records) && g in ClusterGroups(config, records)
    requires forall id :: id in m && m[id].status == Active ==> m[id].supersededBy == None
    ensures |g| >= config.minSize && ActiveWithoutSuccessor(m, Ids(g)) && forall id :: id in Ids(g) ==> id in m
  {
    ClustersSound(config, records);
    IdsContents(g);
    forall id | id in Ids(g) ensures id in m && m[id].status == Active {
      var r: Entry :| r in g && r.id == id;
      assert r in records;
    }
  }

  lemma ClustersAreReady(m: Entries, records: seq<Entry>, ticks: seq<Tick>, engine: Engine, project: Option<ProjectId>)
    requires engine.Valid() && IsQueryResult(m, project, records) && FreshSupply(m, ticks)
    requires forall id :: id in m && m[id].status == Active ==> m[id].supersededBy == None
    requires |ClusterGroups(engine.clusters, records)| <= |ticks|
    ensures Ready(m, ClusterGroups(engine.clusters, records), ticks, engine)
  {
    var clusters := ClusterGroups(engine.clusters, records);
    forall k | 0 <= k < |clusters|
      ensures clusters[k] != [] && ActiveWithoutSuccessor(m, Ids(clusters[k]))
      ensures (forall id :: id in IdSet(clusters[k]) ==> id in m)
      ensures FreshPattern(m, PatternOf(clusters, ticks, k, engine))
    {
      ClusterIds(m, records, project, engine.clusters, clusters[k]);
    }
    ClustersApart(engine.clusters, records);
    forall j, k | 0 <= j < k < |clusters| ensures IdSet(clusters[j]) !! IdSet(clusters[k]) {
      IdsContents(clusters[j]);
      IdsContents(clusters[k]);
    }
  }

  // So a whole pass over what the store holds is atomic cluster by cluster, whatever fails: if compensation works,
  // a pass that throws leaves the store of a completed pass over the clusters before the one that failed, up to
  // the touch times of that one's records.
  lemma ThrownPassIsACompletedShorterPass(m: Entries, records: seq<Entry>, ticks: seq<Tick>, faults: seq<Faults>,
                                          engine: Engine, project: Option<ProjectId>)
    returns (n: nat)
    requires engine.Valid() && IsQueryResult(m, project, records) && FreshSupply(m, ticks)
    requires forall id :: id in m && m[id].status == Active ==> m[id].supersededBy == None
    requires var clusters := ClusterGroups(engine.clusters, records); |clusters| <= |ticks| && |clusters| <= |faults|
    requires forall k :: 0 <= k < |faults| ==> faults[k].CompensationWorks()
    requires !PassOver(m, ClusterGroups(engine.clusters, records), ticks, faults, engine).completed
    ensures n < |ClusterGroups(engine.clusters, records)|
    ensures var clusters := ClusterGroups(engine.clusters, records);
            var kept := PassOver(m, clusters[..n], ticks, faults, engine);
            kept.completed
              && SameExceptTouched(kept.entries, PassOver(m, clusters, ticks, faults, engine).entries,
                                   IdSet(clusters[n]))
  {
    ClustersAreReady(m, records, ticks, engine, project);
    n := FailedPassKeepsWholePromotions(m, ClusterGroups(engine.clusters, records), ticks, faults, engine);
  }

  /******* What a pass leaves in the store *******/

  lemma PersistedElsewhere(m: Entries, pattern: Entry, tick: Tick, faults: Faults, id: EntryId)
    requires id != pattern.id && id !in pattern.sources
    ensures var after := Persisted(m, pattern, tick, faults).0;
            (id in after <==> id in m) && (id in m ==> after[id] == m[id])
  {
    var sources := pattern.sources;
    var marked := Marked(m[pattern.id := pattern], sources[..Stopped(faults.marks, |sources|)], pattern.id,
                         tick.markedAt);
    RestoredContents(marked, sources[..Stopped(faults.restores, |sources|)], pattern.id, tick.restoredAt);
  }

  // Neither a record nor the pattern of a cluster.
  predicate Foreign(clusters: seq<Group>, ticks: seq<Tick>, id: EntryId)
    requires |clusters| <= |ticks|
  {
    forall k :: 0 <= k < |clusters| ==> id != ticks[k].patternId && id !in IdSet(clusters[k])
  }

  lemma {:induction false} PassElsewhere(m: Entries, clusters: seq<Group>, ticks: seq<Tick>, faults: seq<Faults>,
                                         engine: Engine, id: EntryId)
    requires engine.Valid() && |clusters| <= |ticks| && |clusters| <= |faults| && Foreign(clusters, ticks, id)
    ensures var after := PassOver(m, clusters, ticks, faults, engine).entries;
            (id in after <==> id in m) && (id in m ==> after[id] == m[id])
    decreases clusters
  {
    if clusters != [] && !faults[0].decision {
      assert Foreign(clusters[1..], ticks[1..], id) by {
        assert forall k :: 0 <= k < |clusters| - 1 ==>
          clusters[1..][k] == clusters[k + 1] && ticks[1..][k] == ticks[k + 1];
      }
      if Promotes(clusters[0], ticks[0], engine) {
        var pattern := PatternOf(clusters, ticks, 0, engine);
        assert id != pattern.id && id !in IdSet(clusters[0]);
        PersistedElsewhere(m, pattern, ticks[0], faults[0], id);
        PassElsewhere(Persisted(m, pattern, ticks[0], faults[0]).0, clusters[1..], ticks[1..], faults[1..], engine, id);
      } else {
        PassElsewhere(m, clusters[1..], ticks[1..], faults[1..], engine, id);
      }
    }
  }

  // The pattern stands in the store, and every record of the cluster is superseded by it and otherwise as it was.
  ghost predicate Replaced(m: Entries, g: Group, pattern: Entry, at: Time, after: Entries) {
    && pattern.id in after && after[pattern.id] == pattern
    && forall id :: id in m && id in IdSet(g) ==>
         && id in after
         && after[id] == m[id].(status := Superseded, supersededBy := Some(pattern.id), updatedAt := at)
  }

  lemma TailAt(clusters: seq<Group>, ticks: seq<Tick>, k: nat)
    requires k + 1 < |clusters| <= |ticks|
    ensures clusters[1..][k] == clusters[k + 1] && ticks[1..][k] == ticks[k + 1]
  {
  }

  lemma FirstUnfolds(m: Entries, clusters: seq<Group>, ticks: seq<Tick>, faults: seq<Faults>, engine: Engine)
    requires engine.Valid() && 0 < |clusters| <= |ticks| && |clusters| <= |faults|
    requires Promotes(clusters[0], ticks[0], engine) && PassOver(m, clusters, ticks, faults, engine).patterns != []
    ensures
      var (m', outcome) := Persisted(m, PatternOf(clusters, ticks, 0, engine), ticks[0], faults[0]);
      && outcome == Promoted
      && PassOver(m, clusters, ticks, faults, engine).entries ==
         PassOver(m', clusters[1..], ticks[1..], faults[1..], engine).entries
  {
  }

  // Neither the first pattern nor a record it names belongs to a later cluster.
  lemma FirstIsForeign(m: Entries, clusters: seq<Group>, ticks: seq<Tick>, engine: Engine, id: EntryId)
    requires engine.Valid() && 0 < |clusters| <= |ticks| && Ready(m, clusters, ticks, engine)
    requires id == ticks[0].patternId || id in IdSet(clusters[0])
    ensures Foreign(clusters[1..], ticks[1..], id)
  {
    var cs, ts := clusters[1..], ticks[1..];
    forall k | 0 <= k < |cs| ensures id != ts[k].patternId && id !in IdSet(cs[k]) {
      TailAt(clusters, ticks, k);
      assert ticks[0].patternId != ticks[k + 1].patternId && IdSet(clusters[0]) !! IdSet(clusters[k + 1]);
      assert ticks[0].patternId !in IdSet(clusters[k + 1]) && ticks[k + 1].patternId !in IdSet(clusters[0]);
    }
  }

  lemma FirstIsReplaced(m: Entries, clusters: seq<Group>, ticks: seq<Tick>, faults: seq<Faults>, engine: Engine)
    requires engine.Valid() && 0 < |clusters| <= |ticks| && |clusters| <= |faults| && Ready(m, clusters, ticks, engine)
    requires Promotes(clusters[0], ticks[0], engine) && PassOver(m, clusters, ticks, faults, engine).patterns != []
    ensures Replaced(m, clusters[0], PatternOf(clusters, ticks, 0, engine), ticks[0].markedAt,
                     PassOver(m, clusters, ticks, faults, engine).entries)
  {
    var pattern := PatternOf(clusters, ticks, 0, engine);
    var m' := Persisted(m, pattern, ticks[0], faults[0]).0;
    assert FreshPattern(m, pattern) && pattern.id == ticks[0].patternId && pattern.sources == Ids(clusters[0]);
    FirstUnfolds(m, clusters, ticks, faults, engine);
    PromotionApplies(m, pattern, ticks[0], faults[0]);
    FirstIsForeign(m, clusters, ticks, engine, pattern.id);
    PassElsewhere(m', clusters[1..], ticks[1..], faults[1..], engine, pattern.id);
    hide Decide, MakePattern, Persisted, PassOver, Ready;
    forall id | id in m && id in IdSet(clusters[0])
      ensures id in PassOver(m, clusters, ticks, faults, engine).entries
      ensures PassOver(m, clusters, ticks, faults, engine).entries[id] ==
              MarkedEntry(m[id], pattern.id, ticks[0].markedAt)
    {
      FirstIsForeign(m, clusters, ticks, engine, id);
      PassElsewhere(m', clusters[1..], ticks[1..], faults[1..], engine, id);
    }
  }

  lemma PatternIdsDiffer(m: Entries, clusters: seq<Group>, ticks: seq<Tick>, engine: Engine, k: nat)
    requires engine.Valid() && 0 < k < |clusters| <= |ticks| && Ready(m, clusters, ticks, engine)
    ensures PatternOf(clusters, ticks, 0, engine) != PatternOf(clusters, ticks, k, engine)
  {
    assert ticks[0].patternId != ticks[k].patternId;
  }

  // The cluster that a reported pattern was made from.
  lemma {:induction false} ClusterOf(m: Entries, clusters: seq<Group>, ticks: seq<Tick>, faults: seq<Faults>,
                                     engine: Engine, p: Entry) returns (k: nat)
    requires engine.Valid() && |clusters| <= |ticks| && |clusters| <= |faults|
    requires p in PassOver(m, clusters, ticks, faults, engine).patterns
    ensures k < |clusters| && Promotes(clusters[k], ticks[k], engine) && p == PatternOf(clusters, ticks, k, engine)
    decreases clusters
  {
    hide Decide, MakePattern;
    var promotes := Promotes(clusters[0], ticks[0], engine);
    if promotes && p == PatternOf(clusters, ticks, 0, engine) {
      k := 0;
    } else {
      var m' := if promotes then Persisted(m, PatternOf(clusters, ticks, 0, engine), ticks[0], faults[0]).0 else m;
      var k' := ClusterOf(m', clusters[1..], ticks[1..], faults[1..], engine, p);
      TailAt(clusters, ticks, k');
      k := k' + 1;
    }
  }

  // What is not the first pattern comes from the rest of the pass, which leaves the final entries.
  lemma PassGoesOn(m: Entries, clusters: seq<Group>, ticks: seq<Tick>, faults: seq<Faults>, engine: Engine, p: Entry)
    requires engine.Valid() && |clusters| <= |ticks| && |clusters| <= |faults| && Ready(m, clusters, ticks, engine)
    requires p in PassOver(m, clusters, ticks, faults, engine).patterns && clusters != []
    requires Promotes(clusters[0], ticks[0], engine) ==> p != PatternOf(clusters, ticks, 0, engine)
    ensures
      var m' := if Promotes(clusters[0], ticks[0], engine)
                then Persisted(m, PatternOf(clusters, ticks, 0, engine), ticks[0], faults[0]).0 else m;
      && Ready(m', clusters[1..], ticks[1..], engine)
      && p in PassOver(m', clusters[1..], ticks[1..], faults[1..], engine).patterns
      && PassOver(m, clusters, ticks, faults, engine).entries ==
         PassOver(m', clusters[1..], ticks[1..], faults[1..], engine).entries
  {
    if Promotes(clusters[0], ticks[0], engine) {
      ReadyAfterPromotion(m, clusters, ticks, faults[0], engine);
    } else {
      ReadyAfterSkip(m, clusters, ticks, engine);
    }
  }

  lemma {:induction false} KthIsReplaced(m: Entries, clusters: seq<Group>, ticks: seq<Tick>, faults: seq<Faults>,
                                         engine: Engine, k: nat, p: Entry)
    requires engine.Valid() && k < |clusters| <= |ticks| && |clusters| <= |faults| && Ready(m, clusters, ticks, engine)
    requires Promotes(clusters[k], ticks[k], engine) && p == PatternOf(clusters, ticks, k, engine)
    requires p in PassOver(m, clusters, ticks, faults, engine).patterns
    ensures Replaced(m, clusters[k], p, ticks[k].markedAt, PassOver(m, clusters, ticks, faults, engine).entries)
    decreases k
  {
    hide Decide, MakePattern, Persisted, PassOver, Ready, Replaced;
    if k == 0 {
      FirstIsReplaced(m, clusters, ticks, faults, engine);
    } else {
      var promotes := Promotes(clusters[0], ticks[0], engine);
      var m' := if promotes then Persisted(m, PatternOf(clusters, ticks, 0, engine), ticks[0], faults[0]).0 else m;
      PatternIdsDiffer(m, clusters, ticks, engine, k);
      PassGoesOn(m, clusters, ticks, faults, engine, p);
      TailAt(clusters, ticks, k - 1);
      KthIsReplaced(m', clusters[1..], ticks[1..], faults[1..], engine, k - 1, p);
      if promotes {
        LaterIsReplaced(m, clusters, ticks, faults[0], engine, k, p,
                        PassOver(m, clusters, ticks, faults, engine).entries);
      }
    }
  }

  // Every pattern that a pass reports, be it completed or thrown, was made from one of its clusters, describes it,
  // and stands in the store in place of the cluster's records.
  lemma PatternIsStored(m: Entries, clusters: seq<Group>, ticks: seq<Tick>, faults: seq<Faults>, engine: Engine,
                        p: Entry)
    returns (k: nat)
    requires engine.Valid() && |clusters| <= |ticks| && |clusters| <= |faults| && Ready(m, clusters, ticks, engine)
    requires p in PassOver(m, clusters, ticks, faults, engine).patterns
    ensures k < |clusters| && Promotes(clusters[k], ticks[k], engine)
    ensures IsPatternOf(p, clusters[k], ticks[k], engine.lifecycle)
    ensures Replaced(m, clusters[k], p, ticks[k].markedAt, PassOver(m, clusters, ticks, faults, engine).entries)
  {
    k := ClusterOf(m, clusters, ticks, faults, engine, p);
    PromotedPatternIsSound(clusters[k], ticks[k], engine);
    KthIsReplaced(m, clusters, ticks, faults, engine, k, p);
  }

  // What the first promotion leaves of a later cluster's records is what it found.
  lemma LaterIsReplaced(m: Entries, clusters: seq<Group>, ticks: seq<Tick>, faults: Faults, engine: Engine, k: nat,
                        p: Entry, after: Entries)
    requires engine.Valid() && 0 < k < |clusters| <= |ticks| && Ready(m, clusters, ticks, engine)
    requires Replaced(Persisted(m, PatternOf(clusters, ticks, 0, engine), ticks[0], faults).0, clusters[k], p,
                      ticks[k].markedAt, after)
    ensures Replaced(m, clusters[k], p, ticks[k].markedAt, after)
  {
    var first := PatternOf(clusters, ticks, 0, engine);
    forall id | id in m && id in IdSet(clusters[k])
      ensures var m' := Persisted(m, first, ticks[0], faults).0; id in m' && m'[id] == m[id]
    {
      assert IdSet(clusters[0]) !! IdSet(clusters[k]) && ticks[0].patternId !in IdSet(clusters[k]);
      assert id !in IdSet(clusters[0]);
      PersistedElsewhere(m, first, ticks[0], faults, id);
    }
  }

  // And a completed pass reports one for every promoted cluster.
  lemma {:induction false} PromotedHasPattern(m: Entries, clusters: seq<Group>, ticks: seq<Tick>, faults: seq<Faults>,
                                              engine: Engine, k: nat) returns (p: Entry)
    requires engine.Valid() && k < |clusters| <= |ticks| && |clusters| <= |faults|
    requires PassOver(m, clusters, ticks, faults, engine).completed && Promotes(clusters[k], ticks[k], engine)
    ensures p in PassOver(m, clusters, ticks, faults, engine).patterns
    ensures IsPatternOf(p, clusters[k], ticks[k], engine.lifecycle)
    decreases clusters
  {
    hide Decide, MakePattern, Persisted;
    if k == 0 {
      p := PatternOf(clusters, ticks, 0, engine);
      PromotedPatternIsSound(clusters[0], ticks[0], engine);
    } else {
      assert clusters[1..][k - 1] == clusters[k] && ticks[1..][k - 1] == ticks[k];
      var m' := if Promotes(clusters[0], ticks[0], engine)
                then Persisted(m, PatternOf(clusters, ticks, 0, engine), ticks[0], faults[0]).0 else m;
      p := PromotedHasPattern(m', clusters[1..], ticks[1..], faults[1..], engine, k - 1);
    }
  }

  // The ids a pass reports as superseded are those its patterns name, in turn.
  lemma {:induction false} SupersededAreSources(m: Entries, clusters: seq<Group>, ticks: seq<Tick>,
                                                faults: seq<Faults>, engine: Engine)
    requires engine.Valid() && |clusters| <= |ticks| && |clusters| <= |faults|
    ensures var result := PassOver(m, clusters, ticks, faults, engine);
            result.superseded == AllSources(result.patterns)
    decreases clusters
  {
    if clusters != [] && !faults[0].decision {
      if Promotes(clusters[0], ticks[0], engine) {
        var pattern := PatternOf(clusters, ticks, 0, engine);
        SupersededAreSources(Persisted(m, pattern, ticks[0], faults[0]).0, clusters[1..], ticks[1..], faults[1..],
                             engine);
      } else {
        SupersededAreSources(m, clusters[1..], ticks[1..], faults[1..], engine);
      }
    }
  }

  function AllSources(patterns: seq<Entry>): seq<EntryId> {
    if patterns == [] then [] else patterns[0].sources + AllSources(patterns[1..])
  }

  // So after a pass over what the store holds: a reported pattern is stored, describes records that were selected
  // and eligible, and replaces them. Under clustering by project they are all of the pattern's project, under
  // clustering by tag the first of them is.
  lemma PassStoresPatterns(m: Entries, records: seq<Entry>, ticks: seq<Tick>, faults: seq<Faults>, engine: Engine,
                           project: Option<ProjectId>, p: Entry)
    returns (k: nat)
    requires engine.Valid() && IsQueryResult(m, project, records) && FreshSupply(m, ticks)
    requires forall id :: id in m && m[id].status == Active ==> m[id].supersededBy == None
    requires var clusters := ClusterGroups(engine.clusters, records); |clusters| <= |ticks| && |clusters| <= |faults|
    requires p in PassOver(m, ClusterGroups(engine.clusters, records), ticks, faults, engine).patterns
    ensures k < |ClusterGroups(engine.clusters, records)|
    ensures
      var g := ClusterGroups(engine.clusters, records)[k];
      && IsPatternOf(p, g, ticks[k], engine.lifecycle)
      && Replaced(m, g, p, ticks[k].markedAt,
                  PassOver(m, ClusterGroups(engine.clusters, records), ticks, faults, engine).entries)
      && !Mixed(g) && TouchedWithin(g, ticks[k].referenceAt, engine.signals.agingDays)
      && (forall r :: r in g ==>
            && r.id in m && m[r.id] == r && r.kind == ExperienceRecord && r.status == Active
            && (project.Some? ==> r.project == project))
      && (if engine.clusters.strategy.ByTag? then g[0].project == p.project
          else forall r :: r in g ==> r.project == p.project)
  {
    var clusters := ClusterGroups(engine.clusters, records);
    ClustersAreReady(m, records, ticks, engine, project);
    k := PatternIsStored(m, clusters, ticks, faults, engine, p);
    DecisionExactly(clusters[k], ticks[k].referenceAt, engine.signals, engine.lifecycle);
    ClustersSound(engine.clusters, records);
    assert clusters[k] in clusters && clusters[k][0] in clusters[k];
  }

  /******* The engine over a store *******/

  ghost predicate Sound(m: Entries) {
    Keyed(m) && forall id :: id in m ==> Storable(m[id])
  }

  lemma {:induction false} RestoredIsSound(m: Entries, ids: seq<EntryId>, pattern: EntryId, clock: nat -> Time)
    requires Sound(m)
    ensures Sound(Restored(m, ids, pattern, clock))
  {
    RestoredContents(m, ids, pattern, clock);
    var r := Restored(m, ids, pattern, clock);
    forall id | id in r ensures r[id].id == id && Storable(r[id]) {
      assert id in m;
    }
  }

  lemma PersistedIsSound(m: Entries, pattern: Entry, tick: Tick, faults: Faults)
    requires Sound(m)
    ensures Sound(Persisted(m, pattern, tick, faults).0)
  {
    var sources := pattern.sources;
    if !faults.patternWrite && Storable(pattern) {
      var marked := Marked(m[pattern.id := pattern], sources[..Stopped(faults.marks, |sources|)], pattern.id,
                           tick.markedAt);
      RestoredIsSound(marked, sources[..Stopped(faults.restores, |sources|)], pattern.id, tick.restoredAt);
    }
  }

  function FirstOf<T>(n: nat, f: nat -> T): (r: seq<T>)
    ensures |r| == n && forall k :: 0 <= k < n ==> r[k] == f(k)
  {
    seq(n, i requires 0 <= i < n => f(i))
  }

  ghost function PassFrom(m: Entries, clusters: seq<Group>, k: nat, supply: nat -> Tick, storage: nat -> Faults,
                          engine: Engine): PassResult
    requires engine.Valid() && k <= |clusters|
  {
    PassOver(m, clusters[k..], FirstOf(|clusters|, supply)[k..], FirstOf(|clusters|, storage)[k..], engine)
  }

  // Before cluster k: what has been done so far and what the rest of the pass will do make up the whole pass.
  ghost predicate Accounts(whole: PassResult, m: Entries, patterns: seq<Entry>, superseded: seq<EntryId>,
                           clusters: seq<Group>, k: nat, supply: nat -> Tick, storage: nat -> Faults, engine: Engine)
    requires engine.Valid()
  {
    k <= |clusters| &&
    var rest := PassFrom(m, clusters, k, supply, storage, engine);
    whole == PassResult(rest.entries, patterns + rest.patterns, superseded + rest.superseded, rest.completed)
  }

  lemma PassStarts(m: Entries, clusters: seq<Group>, supply: nat -> Tick, storage: nat -> Faults, engine: Engine)
    requires engine.Valid()
    ensures Accounts(PassOver(m, clusters, FirstOf(|clusters|, supply), FirstOf(|clusters|, storage), engine), m, [],
                     [], clusters, 0, supply, storage, engine)
  {
    var ticks, faults := FirstOf(|clusters|, supply), FirstOf(|clusters|, storage);
    assert clusters[0..] == clusters && ticks[0..] == ticks && faults[0..] == faults;
    var rest := PassFrom(m, clusters, 0, supply, storage, engine);
    assert [] + rest.patterns == rest.patterns && [] + rest.superseded == rest.superseded;
  }

  lemma PassStep(whole: PassResult, m: Entries, patterns: seq<Entry>, superseded: seq<EntryId>, clusters: seq<Group>,
                 k: nat,
                 supply: nat -> Tick, storage: nat -> Faults, engine: Engine)
    requires engine.Valid() && k < |clusters|
    requires Accounts(whole, m, patterns, superseded, clusters, k, supply, storage, engine)
    ensures storage(k).decision ==> whole == PassResult(m, patterns, superseded, false)
    ensures !storage(k).decision && !Promotes(clusters[k], supply(k), engine) ==>
              Accounts(whole, m, patterns, superseded, clusters, k + 1, supply, storage, engine)
    ensures !storage(k).decision && Promotes(clusters[k], supply(k), engine) ==>
              var pattern := MakePattern(clusters[k], supply(k), engine);
              var (m', outcome) := Persisted(m, pattern, supply(k), storage(k));
              if outcome == Promoted
              then Accounts(whole, m', patterns + [pattern], superseded + pattern.sources, clusters, k + 1, supply,
                            storage, engine)
              else whole == PassResult(m', patterns, superseded, false)
  {
    var ticks, faults := FirstOf(|clusters|, supply), FirstOf(|clusters|, storage);
    assert ticks[k] == supply(k) && faults[k] == storage(k);
    assert clusters[k..][0] == clusters[k] && ticks[k..][0] == supply(k) && faults[k..][0] == storage(k);
    assert clusters[k..][1..] == clusters[k + 1..] && ticks[k..][1..] == ticks[k + 1..]
      && faults[k..][1..] == faults[k + 1..];
    assert patterns + [] == patterns && superseded + [] == superseded;
    if !storage(k).decision && Promotes(clusters[k], supply(k), engine) {
      var pattern := MakePattern(clusters[k], supply(k), engine);
      var (m', outcome) := Persisted(m, pattern, supply(k), storage(k));
      var rest := PassFrom(m', clusters, k + 1, supply, storage, engine);
      Assoc(patterns, [pattern], rest.patterns);
      Assoc(superseded, pattern.sources, rest.superseded);
      assert patterns + [] == patterns && superseded + [] == superseded;
    }
  }

  lemma PassEnds(whole: PassResult, m: Entries, patterns: seq<Entry>, superseded: seq<EntryId>, clusters: seq<Group>,
                 supply: nat -> Tick, storage: nat -> Faults, engine: Engine)
    requires engine.Valid() && Accounts(whole, m, patterns, superseded, clusters, |clusters|, supply, storage, engine)
    ensures whole == PassResult(m, patterns, superseded, true)
  {
    assert clusters[|clusters|..] == [];
    assert patterns + [] == patterns && superseded + [] == superseded;
  }

  class DistillationEngine {
    const ltm: Store
    const engine: Engine

    constructor (ltm: Store, engine: Engine)
      ensures this.ltm == ltm && this.engine == engine
    {
      this.ltm := ltm;
      this.engine := engine;
    }

    method PersistPromotion(pattern: Entry, tick: Tick, faults: Faults) returns (outcome: Outcome)
      requires Sound(ltm.entries)
      modifies ltm
      ensures (ltm.entries, outcome) == Persisted(old(ltm.entries), pattern, tick, faults)
    {
      var written := ltm.Write(pattern, faults.patternWrite);
      if !written {
        return PatternNotWritten;
      }
      if faults.written {
        return NotRolledBack;
      }
      var marked := ltm.MarkSuperseded(pattern.sources, pattern.id, tick.markedAt, faults.marks);
      if marked && !faults.audit {
        return Promoted;
      }
      if faults.compensation {
        return NotRolledBack;
      }
      RestoreSources(pattern.sources, pattern.id, tick.restoredAt, faults.restores);
      if faults.restores.Some? {
        return RollbackIncomplete;
      }
      var _ := ltm.Delete(pattern.id, faults.delete);
      outcome := if faults.delete then RollbackIncomplete else RolledBack;
    }

    // The compensation loop; an error after failAfter sources ends it.
    method RestoreSources(sources: seq<EntryId>, pattern: EntryId, clock: nat -> Time, failAfter: Option<nat>)
      requires Sound(ltm.entries)
      modifies ltm
      ensures ltm.entries == Restored(old(ltm.entries), sources[..Stopped(failAfter, |sources|)], pattern, clock)
    {
      ghost var m := ltm.entries;
      var n := 0;
      while n < |sources| && failAfter != Some(n)
        invariant 0 <= n <= |sources| && (failAfter.Some? ==> n <= failAfter.value)
        invariant ltm.entries == Restored(m, sources[..n], pattern, clock)
      {
        RestoredIsSound(m, sources[..n], pattern, clock);
        RestoreOneMore(m, sources, pattern, clock, n);
        var entry := ltm.Read(sources[n]);
        if entry.Some? && entry.value.supersededBy == Some(pattern) {
          var _ := ltm.Write(RestoredEntry(entry.value, clock(n)), false);
        }
        n := n + 1;
      }
    }

    // What a pass does with one cluster: decide, record the decision, and promote if it says so.
    method HandleCluster(g: Group, tick: Tick, faults: Faults) returns (pattern: Option<Entry>, ok: bool)
      requires engine.Valid() && Sound(ltm.entries)
      modifies ltm
      ensures Sound(ltm.entries)
      ensures pattern ==
              if !faults.decision && Promotes(g, tick, engine) then Some(MakePattern(g, tick, engine)) else None
      ensures pattern.None? ==> ok == !faults.decision && ltm.entries == old(ltm.entries)
      ensures pattern.Some? ==> ltm.entries == Persisted(old(ltm.entries), pattern.value, tick, faults).0
      ensures pattern.Some? ==> (ok <==> Persisted(old(ltm.entries), pattern.value, tick, faults).1 == Promoted)
    {
      var promotes := Promotes(g, tick, engine);
      if faults.decision {
        return None, false;
      }
      if !promotes {
        return None, true;
      }
      var made := MakePattern(g, tick, engine);
      PersistedIsSound(ltm.entries, made, tick, faults);
      var outcome := PersistPromotion(made, tick, faults);
      return Some(made), outcome == Promoted;
    }

    // The loop of a pass. Ticks and storage faults are consumed one per cluster.
    method PromoteClusters(clusters: seq<Group>, supply: nat -> Tick, storage: nat -> Faults)
      returns (result: PassResult)
      requires engine.Valid() && Sound(ltm.entries)
      modifies ltm
      ensures result ==
              PassOver(old(ltm.entries), clusters, FirstOf(|clusters|, supply), FirstOf(|clusters|, storage), engine)
      ensures ltm.entries == result.entries
    {
      ghost var whole :=
        PassOver(ltm.entries, clusters, FirstOf(|clusters|, supply), FirstOf(|clusters|, storage), engine);
      var patterns: seq<Entry>, superseded: seq<EntryId> := [], [];
      var k := 0;
      PassStarts(ltm.entries, clusters, supply, storage, engine);
      while k < |clusters|
        invariant 0 <= k <= |clusters| && Sound(ltm.entries)
        invariant Accounts(whole, ltm.entries, patterns, superseded, clusters, k, supply, storage, engine)
      {
        PassStep(whole, ltm.entries, patterns, superseded, clusters, k, supply, storage, engine);
        var pattern, ok := HandleCluster(clusters[k], supply(k), storage(k));
        if !ok {
          result := PassResult(ltm.entries, patterns, superseded, false);
          return;
        }
        if pattern.Some? {
          patterns := patterns + [pattern.value];
          superseded := superseded + pattern.value.sources;
        }
        k := k + 1;
      }
      PassEnds(whole, ltm.entries, patterns, superseded, clusters, supply, storage, engine);
      result := PassResult(ltm.entries, patterns, superseded, true);
    }

    // A pass that is not completed threw.
    method RunDistillationPass(project: Option<ProjectId>, supply: nat -> Tick, storage: nat -> Faults)
      returns (result: PassResult, ghost records: seq<Entry>)
      requires engine.Valid() && Sound(ltm.entries)
      modifies ltm
      ensures IsQueryResult(old(ltm.entries), project, records)
      ensures var clusters := ClusterGroups(engine.clusters, records);
              result == PassOver(old(ltm.entries), clusters, FirstOf(|clusters|, supply), FirstOf(|clusters|, storage),
                                 engine)
      ensures ltm.entries == result.entries
    {
      var found, all := ltm.Query(PassFilter(project));
      records := found.value;
      assert forall r :: Matches(r, PassFilter(project)) <==> Selected(r, project);
      var clusters := IdentifyClusters(found.value, engine.clusters);
      ClustersOfDistinct(engine.clusters, records);
      result := PromoteClusters(clusters, supply, storage);
    }

    // The restoring loop of a reversal, as far as storage lets it.
    method ReactivateSources(ids: seq<EntryId>, clock: nat -> Time, failAfter: Option<nat>) returns (ok: bool)
      requires Sound(ltm.entries)
      modifies ltm
      ensures Sound(ltm.entries)
      ensures ok == !(failAfter.Some? && failAfter.value < |ids|)
      ensures ltm.entries == Reactivated(old(ltm.entries), if ok then ids else ids[..failAfter.value], clock)
    {
      ghost var m := ltm.entries;
      var n := 0;
      while n < |ids| && failAfter != Some(n)
        invariant 0 <= n <= |ids| && Sound(ltm.entries)
        invariant failAfter.Some? ==> n <= failAfter.value
        invariant ltm.entries == Reactivated(m, ids[..n], clock)
      {
        assert ids[..n + 1][..n] == ids[..n];
        var entry := ltm.Read(ids[n]);
        if entry.Some? {
          var _ := ltm.Write(RestoredEntry(entry.value, clock(n)), false);
        }
        n := n + 1;
      }
      assert ids[..|ids|] == ids;
      ok := n == |ids|;
    }

    // failAfter: storage fails at the source in this position, or at the pattern, or an observer fails after that, and
    // ends the call with an error.
    method ReverseSupersession(pattern: EntryId, clock: nat -> Time, failAfter: Option<nat>)
      returns (result: ReversalResult)
      requires Sound(ltm.entries)
      modifies ltm
      ensures result == ReverseUntil(old(ltm.entries), pattern, clock, failAfter)
      ensures ltm.entries == if result.Reversed? || result.Interrupted? then result.entries else old(ltm.entries)
    {
      var read := ltm.Read(pattern);
      if read.None? || read.value.kind != DistilledPattern {
        return PatternNotFound;
      }
      ghost var m := ltm.entries;
      var ids := Unique(read.value.sources);
      if ids == [] {
        return NoSources;
      }
      var restored := ReactivateSources(ids, clock, failAfter);
      if !restored || failAfter == Some(|ids|) {
        assert ids[..|ids|] == ids;
        assert ltm.entries == Reactivated(m, ids[..failAfter.value], clock);
        return Interrupted(ltm.entries);
      }
      assert ltm.entries == Reactivated(m, ids, clock);
      var _ := ltm.Write(read.value.(status := Superseded, updatedAt := clock(|ids|)), false);
      assert Reverse(m, pattern, clock) == Reversed(ltm.entries);
      result := if failAfter.Some? then Interrupted(ltm.entries) else Reversed(ltm.entries);
    }
  }
}
