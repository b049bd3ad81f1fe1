/**
 * Greedy clustering of experience records by shared tags or by project.
 *
 * One method walks the sorted records with a set of used ids, the other cuts the sorted list of each project into
 * chunks. Each is proved against a recursive specification that first splits all records into groups; clusters are the
 * groups that are large enough.
 */
module Clustering {
  import opened Sorting
  import opened Memory

  datatype Strategy = ByTag | ByProject | Semantic
  datatype Config = Config(minSize: nat, maxSize: Size, strategy: Strategy, tagOverlapMin: Option<nat>) {
    predicate Valid() {
      2 <= minSize <= 50 && 3 <= maxSize <= 100 && (tagOverlapMin.Some? ==> tagOverlapMin.value >= 1)
    }

    function MinOverlap(): nat {
      if tagOverlapMin.Some? then tagOverlapMin.value else 1
    }
  }

  // A cluster is a group of records; its project is the project of its first record.
  type Group = seq<Entry>

  type Size = n: nat | n > 0 witness 1

  lemma IdBeforeIsTotal()
    ensures TotalOrder(IdBefore)
  {
  }

  lemma DistinctIdsDoNotTie(records: seq<Entry>)
    requires DistinctIds(records)
    ensures NoTies(IdBefore, records)
  {
    forall x, y | x in records && y in records && IdBefore(x, y) && IdBefore(y, x) ensures x == y {
      var i :| 0 <= i < |records| && records[i] == x;
      var j :| 0 <= j < |records| && records[j] == y;
    }
  }

  /******* Grouping by tag overlap *******/

  predicate Overlaps(seed: Entry, other: Entry, minOverlap: nat) {
    |seed.tags * other.tags| >= minOverlap
  }

  // The first room records of rest that overlap with the seed.
  function Picked(seed: Entry, rest: seq<Entry>, room: nat, minOverlap: nat): seq<Entry> {
    if rest == [] || room == 0 then []
    else if Overlaps(seed, rest[0], minOverlap) then [rest[0]] + Picked(seed, rest[1..], room - 1, minOverlap)
    else Picked(seed, rest[1..], room, minOverlap)
  }

  // What the seed leaves behind.
  function Left(seed: Entry, rest: seq<Entry>, room: nat, minOverlap: nat): (r: seq<Entry>)
    ensures |r| <= |rest|
  {
    if rest == [] || room == 0 then rest
    else if Overlaps(seed, rest[0], minOverlap) then Left(seed, rest[1..], room - 1, minOverlap)
    else [rest[0]] + Left(seed, rest[1..], room, minOverlap)
  }

  function TagGroups(sorted: seq<Entry>, maxSize: Size, minOverlap: nat): seq<Group>
    decreases |sorted|
  {
    if sorted == [] then []
    else
      var room := maxSize - 1;
      [[sorted[0]] + Picked(sorted[0], sorted[1..], room, minOverlap)]
        + TagGroups(Left(sorted[0], sorted[1..], room, minOverlap), maxSize, minOverlap)
  }

  /******* Grouping by project *******/

  function Chunks(sorted: seq<Entry>, maxSize: Size): seq<Group> {
    if sorted == [] then []
    else if |sorted| <= maxSize then [sorted]
    else [sorted[..maxSize]] + Chunks(sorted[maxSize..], maxSize)
  }

  function InProject(key: Option<ProjectId>): Entry -> bool {
    (r: Entry) => r.project == key
  }

  // Project keys in order of first appearance.
  function Keys(records: seq<Entry>): (r: seq<Option<ProjectId>>)
    ensures forall k :: k in r <==> exists i :: 0 <= i < |records| && records[i].project == k
  {
    if records == [] then []
    else
      var n := |records| - 1;
      var ks := Keys(records[..n]);
      assert records == records[..n] + [records[n]];
      if records[n].project in ks then ks else ks + [records[n].project]
  }

  function ProjectGroups(keys: seq<Option<ProjectId>>, records: seq<Entry>, maxSize: Size): seq<Group> {
    if keys == [] then []
    else Chunks(Sort(IdBefore, Filter(InProject(keys[0]), records)), maxSize)
           + ProjectGroups(keys[1..], records, maxSize)
  }

  /******* Clusters *******/

  function LargeEnough(minSize: nat): Group -> bool {
    (g: Group) => |g| >= minSize
  }

  function Groups(config: Config, records: seq<Entry>): seq<Group> {
    if config.strategy.ByTag? then TagGroups(Sort(IdBefore, records), config.maxSize, config.MinOverlap())
    else ProjectGroups(Keys(records), records, config.maxSize)
  }

  predicate Eligible(r: Entry) {
    r.status != Superseded && r.status != SoftDeleted
  }

  // The specification of identifyClusters, as bare groups.
  function ClusterGroups(config: Config, records: seq<Entry>): seq<Group> {
    Filter(LargeEnough(config.minSize), Groups(config, Filter(Eligible, records)))
  }

  /******* Groups are made of the input records, each used once *******/

  function Flatten(groups: seq<Group>): seq<Entry> {
    if groups == [] then [] else groups[0] + Flatten(groups[1..])
  }

  lemma FlattenCons(g: Group, groups: seq<Group>)
    ensures Flatten([g] + groups) == g + Flatten(groups)
  {
    assert ([g] + groups)[1..] == groups;
  }

  lemma {:induction false} FlattenAppend(a: seq<Group>, b: seq<Group>)
    ensures Flatten(a + b) == Flatten(a) + Flatten(b)
  {
    if a == [] {
      assert a + b == b;
    } else {
      FlattenAppend(a[1..], b);
      assert a + b == [a[0]] + (a[1..] + b);
      FlattenCons(a[0], a[1..] + b);
      Assoc(a[0], Flatten(a[1..]), Flatten(b));
    }
  }

  lemma {:induction false} PickedAndLeftSplit(seed: Entry, rest: seq<Entry>, room: nat, minOverlap: nat)
    ensures multiset(Picked(seed, rest, room, minOverlap)) + multiset(Left(seed, rest, room, minOverlap)) ==
            multiset(rest)
  {
    if rest != [] && room != 0 {
      assert rest == [rest[0]] + rest[1..];
      PickedAndLeftSplit(seed, rest[1..], if Overlaps(seed, rest[0], minOverlap) then room - 1 else room, minOverlap);
    }
  }

  lemma Reassemble(sorted: seq<Entry>, picked: seq<Entry>, left: seq<Entry>, flat: seq<Entry>, all: seq<Entry>)
    requires sorted != [] && multiset(picked) + multiset(left) == multiset(sorted[1..])
    requires multiset(flat) == multiset(left) && all == ([sorted[0]] + picked) + flat
    ensures multiset(all) == multiset(sorted)
  {
    assert sorted == [sorted[0]] + sorted[1..];
  }

  lemma TagGroupsUnfold(sorted: seq<Entry>, maxSize: Size, minOverlap: nat)
    requires sorted != []
    ensures var seed, rest, room := sorted[0], sorted[1..], maxSize - 1;
            Flatten(TagGroups(sorted, maxSize, minOverlap))
              == ([seed] + Picked(seed, rest, room, minOverlap))
                   + Flatten(TagGroups(Left(seed, rest, room, minOverlap), maxSize, minOverlap))
  {
    var seed, rest, room := sorted[0], sorted[1..], maxSize - 1;
    FlattenCons([seed] + Picked(seed, rest, room, minOverlap),
                TagGroups(Left(seed, rest, room, minOverlap), maxSize, minOverlap));
  }

  lemma TagGroupsPartitionStep(sorted: seq<Entry>, maxSize: Size, minOverlap: nat)
    requires sorted != []
    requires var left := Left(sorted[0], sorted[1..], maxSize - 1, minOverlap);
             multiset(Flatten(TagGroups(left, maxSize, minOverlap))) == multiset(left)
    ensures multiset(Flatten(TagGroups(sorted, maxSize, minOverlap))) == multiset(sorted)
  {
    var seed, rest, room := sorted[0], sorted[1..], maxSize - 1;
    var picked, left := Picked(seed, rest, room, minOverlap), Left(seed, rest, room, minOverlap);
    TagGroupsUnfold(sorted, maxSize, minOverlap);
    PickedAndLeftSplit(seed, rest, room, minOverlap);
    Reassemble(sorted, picked, left, Flatten(TagGroups(left, maxSize, minOverlap)),
               Flatten(TagGroups(sorted, maxSize, minOverlap)));
  }

  // Every record ends up in exactly one group.
  lemma {:induction false} TagGroupsPartition(sorted: seq<Entry>, maxSize: Size, minOverlap: nat)
    ensures multiset(Flatten(TagGroups(sorted, maxSize, minOverlap))) == multiset(sorted)
    decreases |sorted|
  {
    if sorted != [] {
      TagGroupsPartition(Left(sorted[0], sorted[1..], maxSize - 1, minOverlap), maxSize, minOverlap);
      TagGroupsPartitionStep(sorted, maxSize, minOverlap);
    }
  }

  lemma {:induction false} ChunksPartition(sorted: seq<Entry>, maxSize: Size)
    ensures Flatten(Chunks(sorted, maxSize)) == sorted
  {
    if sorted != [] {
      if |sorted| <= maxSize {
        assert Chunks(sorted, maxSize) == [sorted];
        assert Flatten([sorted]) == sorted + Flatten([]);
      } else {
        ChunksPartition(sorted[maxSize..], maxSize);
        assert sorted == sorted[..maxSize] + sorted[maxSize..];
      }
    }
  }

  lemma OwnChunksCount(key: Option<ProjectId>, records: seq<Entry>, maxSize: Size, x: Entry)
    ensures multiset(Flatten(Chunks(Sort(IdBefore, Filter(InProject(key), records)), maxSize)))[x]
         == if x.project == key then multiset(records)[x] else 0
  {
    var own := Filter(InProject(key), records);
    ChunksPartition(Sort(IdBefore, own), maxSize);
    IdBeforeIsTotal();
    SortCorrect(IdBefore, own);
    FilterMultiset(InProject(key), records, x);
  }

  lemma ProjectGroupsUnfold(keys: seq<Option<ProjectId>>, records: seq<Entry>, maxSize: Size)
    requires keys != []
    ensures multiset(Flatten(ProjectGroups(keys, records, maxSize)))
         == multiset(Flatten(Chunks(Sort(IdBefore, Filter(InProject(keys[0]), records)), maxSize)))
              + multiset(Flatten(ProjectGroups(keys[1..], records, maxSize)))
  {
    FlattenAppend(Chunks(Sort(IdBefore, Filter(InProject(keys[0]), records)), maxSize),
                  ProjectGroups(keys[1..], records, maxSize));
  }

  lemma ProjectGroupsCountStep(keys: seq<Option<ProjectId>>, records: seq<Entry>, maxSize: Size, x: Entry)
    requires keys != [] && Distinct(keys)
    requires multiset(Flatten(ProjectGroups(keys[1..], records, maxSize)))[x]
          == if x.project in keys[1..] then multiset(records)[x] else 0
    ensures multiset(Flatten(ProjectGroups(keys, records, maxSize)))[x] ==
            if x.project in keys then multiset(records)[x] else 0
  {
    OwnChunksCount(keys[0], records, maxSize, x);
    ProjectGroupsUnfold(keys, records, maxSize);
    assert x.project in keys <==> x.project == keys[0] || x.project in keys[1..] by {
      assert keys == [keys[0]] + keys[1..];
    }
  }

  lemma {:induction false} ProjectGroupsCount(keys: seq<Option<ProjectId>>, records: seq<Entry>, maxSize: Size,
                                              x: Entry)
    requires Distinct(keys)
    ensures multiset(Flatten(ProjectGroups(keys, records, maxSize)))[x] ==
            if x.project in keys then multiset(records)[x] else 0
  {
    if keys != [] {
      ProjectGroupsCount(keys[1..], records, maxSize, x);
      ProjectGroupsCountStep(keys, records, maxSize, x);
    }
  }

  lemma {:induction false} KeysDistinct(records: seq<Entry>)
    ensures Distinct(Keys(records))
  {
    if records != [] {
      KeysDistinct(records[..|records| - 1]);
    }
  }

  lemma GroupsPartition(config: Config, records: seq<Entry>)
    ensures multiset(Flatten(Groups(config, records))) == multiset(records)
  {
    IdBeforeIsTotal();
    if config.strategy.ByTag? {
      SortCorrect(IdBefore, records);
      TagGroupsPartition(Sort(IdBefore, records), config.maxSize, config.MinOverlap());
    } else {
      KeysDistinct(records);
      var flat := multiset(Flatten(Groups(config, records)));
      forall x ensures flat[x] == multiset(records)[x] {
        ProjectGroupsCount(Keys(records), records, config.maxSize, x);
        if x in records {
          assert x.project in Keys(records);
        } else {
          assert x !in multiset(records);
        }
      }
    }
  }

  /******* Removing whole groups leaves every other group as it was *******/

  function Outside(gone: set<EntryId>): Entry -> bool {
    (r: Entry) => r.id !in gone
  }

  predicate Untouched(g: Group, gone: set<EntryId>) {
    forall r :: r in g ==> r.id !in gone
  }

  ghost predicate Gone(g: Group, gone: set<EntryId>) {
    forall r :: r in g ==> r.id in gone
  }

  // gone takes each group entirely or not at all.
  ghost predicate TakesWholeGroups(groups: seq<Group>, gone: set<EntryId>) {
    forall g :: g in groups ==> Untouched(g, gone) || Gone(g, gone)
  }

  function Spared(gone: set<EntryId>): Group -> bool {
    (g: Group) => Untouched(g, gone)
  }

  function Survivors(groups: seq<Group>, gone: set<EntryId>): seq<Group> {
    Filter(Spared(gone), groups)
  }

  lemma {:induction false} SeedIgnoresTheGone(seed: Entry, rest: seq<Entry>, room: nat, minOverlap: nat,
                                              gone: set<EntryId>)
    requires Untouched(Picked(seed, rest, room, minOverlap), gone)
    ensures Picked(seed, Filter(Outside(gone), rest), room, minOverlap) == Picked(seed, rest, room, minOverlap)
    ensures Left(seed, Filter(Outside(gone), rest), room, minOverlap) ==
            Filter(Outside(gone), Left(seed, rest, room, minOverlap))
  {
    if rest != [] && room != 0 {
      var picks := Overlaps(seed, rest[0], minOverlap);
      var room' := if picks then room - 1 else room;
      if picks {
        var picked := Picked(seed, rest, room, minOverlap);
        assert picked[0] == rest[0] && rest[0] in picked;
        assert picked[1..] == Picked(seed, rest[1..], room', minOverlap);
      }
      SeedIgnoresTheGone(seed, rest[1..], room', minOverlap, gone);
      var kept, left := Filter(Outside(gone), rest[1..]), Left(seed, rest[1..], room', minOverlap);
      FilterCons(Outside(gone), rest[0], left);
      if rest[0].id !in gone {
        assert Filter(Outside(gone), rest) == [rest[0]] + kept;
        assert ([rest[0]] + kept)[1..] == kept;
      }
    }
  }

  lemma {:induction false} GoneSeedLeavesRest(seed: Entry, rest: seq<Entry>, room: nat, minOverlap: nat,
                                              gone: set<EntryId>)
    requires Gone(Picked(seed, rest, room, minOverlap), gone)
    ensures Filter(Outside(gone), rest) == Filter(Outside(gone), Left(seed, rest, room, minOverlap))
  {
    if rest != [] && room != 0 {
      if Overlaps(seed, rest[0], minOverlap) {
        var picked := Picked(seed, rest, room, minOverlap);
        assert picked[0] == rest[0] && picked[1..] == Picked(seed, rest[1..], room - 1, minOverlap);
        GoneSeedLeavesRest(seed, rest[1..], room - 1, minOverlap, gone);
      } else {
        GoneSeedLeavesRest(seed, rest[1..], room, minOverlap, gone);
        FilterCons(Outside(gone), rest[0], Left(seed, rest[1..], room, minOverlap));
      }
    }
  }

  lemma {:induction false} TagGroupsSurvive(sorted: seq<Entry>, maxSize: Size, minOverlap: nat, gone: set<EntryId>)
    requires TakesWholeGroups(TagGroups(sorted, maxSize, minOverlap), gone)
    ensures TagGroups(Filter(Outside(gone), sorted), maxSize, minOverlap)
         == Survivors(TagGroups(sorted, maxSize, minOverlap), gone)
    decreases |sorted|
  {
    if sorted != [] {
      var seed, rest, room := sorted[0], sorted[1..], maxSize - 1;
      var picked, left := Picked(seed, rest, room, minOverlap), Left(seed, rest, room, minOverlap);
      var g, groups := [seed] + picked, TagGroups(left, maxSize, minOverlap);
      assert TagGroups(sorted, maxSize, minOverlap) == [g] + groups;
      FilterCons(Spared(gone), g, groups);
      assert g[0] == seed && g[1..] == picked;
      TagGroupsSurvive(left, maxSize, minOverlap, gone);
      if Untouched(g, gone) {
        SeedIgnoresTheGone(seed, rest, room, minOverlap, gone);
        var kept := Filter(Outside(gone), rest);
        assert Filter(Outside(gone), sorted) == [seed] + kept;
        assert ([seed] + kept)[1..] == kept;
      } else {
        assert Gone(g, gone) && g[0].id in gone;
        assert Gone(picked, gone) by { assert forall r :: r in picked ==> r in g; }
        GoneSeedLeavesRest(seed, rest, room, minOverlap, gone);
      }
    }
  }

  lemma {:induction false} ChunksSurvive(sorted: seq<Entry>, maxSize: Size, gone: set<EntryId>)
    requires TakesWholeGroups(Chunks(sorted, maxSize), gone)
    ensures Chunks(Filter(Outside(gone), sorted), maxSize) == Survivors(Chunks(sorted, maxSize), gone)
    decreases |sorted|
  {
    if sorted != [] {
      var g := if |sorted| <= maxSize then sorted else sorted[..maxSize];
      var rest := if |sorted| <= maxSize then [] else sorted[maxSize..];
      assert sorted == g + rest;
      var groups := Chunks(rest, maxSize);
      assert Chunks(sorted, maxSize) == [g] + groups;
      FilterCons(Spared(gone), g, groups);
      ChunksSurvive(rest, maxSize, gone);
      FilterAppend(Outside(gone), g, rest);
      var kept := Filter(Outside(gone), rest);
      if Untouched(g, gone) {
        FilterAll(Outside(gone), g);
        if kept != [] {
          assert (g + kept)[..maxSize] == g && (g + kept)[maxSize..] == kept;
        } else {
          assert g + kept == g;
        }
      } else {
        assert Gone(g, gone);
        FilterNone(Outside(gone), g);
        assert [] + kept == kept;
      }
    }
  }

  lemma {:induction false} InProjectGroups(keys: seq<Option<ProjectId>>, records: seq<Entry>, maxSize: Size, g: Group)
    ensures g in ProjectGroups(keys, records, maxSize)
       <==> exists k :: k in keys && g in Chunks(Sort(IdBefore, Filter(InProject(k), records)), maxSize)
  {
    if keys != [] {
      InProjectGroups(keys[1..], records, maxSize, g);
      assert keys == [keys[0]] + keys[1..];
    }
  }

  lemma {:induction false} ChunksHoldTheirInput(sorted: seq<Entry>, maxSize: Size, g: Group)
    requires g in Chunks(sorted, maxSize)
    ensures g != [] && |g| <= maxSize && (forall r :: r in g ==> r in sorted)
  {
    if |sorted| > maxSize && g != sorted[..maxSize] {
      ChunksHoldTheirInput(sorted[maxSize..], maxSize, g);
    }
  }

  lemma {:induction false} FilterCommutes<T(!new)>(p: T -> bool, q: T -> bool, xs: seq<T>)
    ensures Filter(p, Filter(q, xs)) == Filter(q, Filter(p, xs))
  {
    if xs != [] {
      FilterCommutes(p, q, xs[1..]);
      FilterCons(p, xs[0], Filter(q, xs[1..]));
      FilterCons(q, xs[0], Filter(p, xs[1..]));
    }
  }

  lemma SubsequenceDistinct(records: seq<Entry>, p: Entry -> bool)
    requires DistinctIds(records)
    ensures NoTies(IdBefore, Filter(p, records))
  {
    DistinctIdsDoNotTie(records);
    FilterContents(p, records);
  }

  // The project's chunks after a removal are its surviving chunks.
  lemma ProjectChunksSurvive(records: seq<Entry>, records': seq<Entry>, k: Option<ProjectId>, maxSize: Size,
                             gone: set<EntryId>)
    requires DistinctIds(records) && multiset(records') == multiset(Filter(Outside(gone), records))
    requires TakesWholeGroups(Chunks(Sort(IdBefore, Filter(InProject(k), records)), maxSize), gone)
    ensures Chunks(Sort(IdBefore, Filter(InProject(k), records')), maxSize)
         == Survivors(Chunks(Sort(IdBefore, Filter(InProject(k), records)), maxSize), gone)
  {
    IdBeforeIsTotal();
    var own, kept := Filter(InProject(k), records), Filter(Outside(gone), records);
    SubsequenceDistinct(records, InProject(k));
    FilterPermutes(InProject(k), records', kept);
    FilterCommutes(InProject(k), Outside(gone), records);
    FilterContents(Outside(gone), own);
    SameElements(Filter(InProject(k), records'), Filter(Outside(gone), own));
    SortCanonical(IdBefore, Filter(InProject(k), records'), Filter(Outside(gone), own));
    SortFilter(IdBefore, Outside(gone), own);
    ChunksSurvive(Sort(IdBefore, own), maxSize, gone);
  }

  // Clustering again after whole groups were taken away gives exactly the groups that were left.
  lemma GroupsSurvive(config: Config, records: seq<Entry>, records': seq<Entry>, gone: set<EntryId>)
    requires DistinctIds(records) && multiset(records') == multiset(Filter(Outside(gone), records))
    requires TakesWholeGroups(Groups(config, records), gone)
    ensures forall g :: g in Groups(config, records') <==> g in Groups(config, records) && Untouched(g, gone)
  {
    IdBeforeIsTotal();
    DistinctIdsDoNotTie(records);
    FilterContents(Outside(gone), records);
    SameElements(records', Filter(Outside(gone), records));
    if config.strategy.ByTag? {
      SortCanonical(IdBefore, records', Filter(Outside(gone), records));
      SortFilter(IdBefore, Outside(gone), records);
      TagGroupsSurvive(Sort(IdBefore, records), config.maxSize, config.MinOverlap(), gone);
      FilterContents(Spared(gone), Groups(config, records));
    } else {
      forall g ensures g in Groups(config, records') <==> g in Groups(config, records) && Untouched(g, gone) {
        ProjectGroupSurvives(config, records, records', gone, g);
      }
    }
  }

  lemma ProjectGroupSurvives(config: Config, records: seq<Entry>, records': seq<Entry>, gone: set<EntryId>, g: Group)
    requires DistinctIds(records) && multiset(records') == multiset(Filter(Outside(gone), records))
    requires !config.strategy.ByTag? && TakesWholeGroups(Groups(config, records), gone)
    ensures g in Groups(config, records') <==> g in Groups(config, records) && Untouched(g, gone)
  {
    var max := config.maxSize;
    InProjectGroups(Keys(records), records, max, g);
    InProjectGroups(Keys(records'), records', max, g);
    FilterContents(Outside(gone), records);
    SameElements(records', Filter(Outside(gone), records));
    forall k
      ensures k in Keys(records') && g in Chunks(Sort(IdBefore, Filter(InProject(k), records')), max) <==>
              && k in Keys(records) && g in Chunks(Sort(IdBefore, Filter(InProject(k), records)), max)
              && Untouched(g, gone)
    {
      KeyOfProjectGroup(records, k, max, g);
      KeyOfProjectGroup(records', k, max, g);
      assert k in Keys(records') ==> k in Keys(records) by {
        if k in Keys(records') {
          var i :| 0 <= i < |records'| && records'[i].project == k;
          assert records'[i] in records;
        }
      }
      if k in Keys(records) {
        var chunks := Chunks(Sort(IdBefore, Filter(InProject(k), records)), max);
        forall h | h in chunks ensures h in Groups(config, records) {
          InProjectGroups(Keys(records), records, max, h);
        }
        ProjectChunksSurvive(records, records', k, max, gone);
        FilterContents(Spared(gone), chunks);
      }
    }
  }

  // A chunk of project k is made of input records of that project, so k is one of the keys.
  lemma KeyOfProjectGroup(records: seq<Entry>, k: Option<ProjectId>, maxSize: Size, g: Group)
    ensures g in Chunks(Sort(IdBefore, Filter(InProject(k), records)), maxSize) ==>
              k in Keys(records) && g != [] && |g| <= maxSize && forall r :: r in g ==> r in records && r.project == k
  {
    var own := Filter(InProject(k), records);
    if g in Chunks(Sort(IdBefore, own), maxSize) {
      IdBeforeIsTotal();
      ChunksHoldTheirInput(Sort(IdBefore, own), maxSize, g);
      SortCorrect(IdBefore, own);
      SameElements(own, Sort(IdBefore, own));
      FilterContents(InProject(k), records);
      assert g[0] in own;
    }
  }

  /******* Soundness *******/

  lemma {:induction false} SameElementsDistinct(xs: seq<Entry>, ys: seq<Entry>)
    requires DistinctIds(xs) && multiset(xs) == multiset(ys)
    ensures DistinctIds(ys)
  {
    SameElements(xs, ys);
    DistinctIdsDoNotTie(xs);
    forall i, j | 0 <= i < j < |ys| ensures ys[i].id != ys[j].id {
      if ys[i].id == ys[j].id {
        assert ys[i] in ys && ys[j] in ys && ys[i] == ys[j];
        OccursTwice(ys, i, j);
        OccursOnce(xs, ys[i]);
      }
    }
  }

  lemma OccursTwice(ys: seq<Entry>, i: nat, j: nat)
    requires i < j < |ys| && ys[i] == ys[j]
    ensures multiset(ys)[ys[i]] >= 2
  {
    assert ys == ys[..i] + [ys[i]] + ys[i + 1..j] + [ys[j]] + ys[j + 1..];
  }

  lemma {:induction false} InFlatten(groups: seq<Group>, g: Group, r: Entry)
    requires g in groups && r in g
    ensures r in Flatten(groups)
  {
    if g != groups[0] {
      InFlatten(groups[1..], g, r);
    }
  }

  lemma {:induction false} GroupsDisjoint(groups: seq<Group>, i: nat, j: nat, r: Entry, q: Entry)
    requires DistinctIds(Flatten(groups))
    requires i < j < |groups| && r in groups[i] && q in groups[j]
    ensures r.id != q.id
  {
    var rest := Flatten(groups[1..]);
    assert Flatten(groups) == groups[0] + rest;
    if i == 0 {
      assert groups[j] == groups[1..][j - 1];
      InFlatten(groups[1..], groups[j], q);
      var a :| 0 <= a < |groups[0]| && groups[0][a] == r;
      var b :| 0 <= b < |rest| && rest[b] == q;
      assert Flatten(groups)[a] == r && Flatten(groups)[|groups[0]| + b] == q;
    } else {
      assert forall k :: 0 <= k < |rest| ==> rest[k] == Flatten(groups)[|groups[0]| + k];
      GroupsDisjoint(groups[1..], i - 1, j - 1, r, q);
    }
  }

  // Groups with a common record are the same group.
  lemma GroupsMeetOnlyThemselves(config: Config, records: seq<Entry>, g: Group, h: Group, r: Entry, q: Entry)
    requires DistinctIds(records)
    requires g in Groups(config, records) && h in Groups(config, records) && r in g && q in h && r.id == q.id
    ensures g == h
  {
    var groups := Groups(config, records);
    GroupsPartition(config, records);
    SameElementsDistinct(records, Flatten(groups));
    var i :| 0 <= i < |groups| && groups[i] == g;
    var j :| 0 <= j < |groups| && groups[j] == h;
    if i < j {
      GroupsDisjoint(groups, i, j, r, q);
    } else if j < i {
      GroupsDisjoint(groups, j, i, q, r);
    }
  }

  // A tag group is led by its seed; everything it picked overlaps with the seed and comes later.
  ghost predicate LedBySeed(g: Group, minOverlap: nat) {
    && g != []
    && (forall k :: 0 < k < |g| ==> Overlaps(g[0], g[k], minOverlap))
    && Sorted(IdBefore, g)
  }

  lemma {:induction false} PickedIsSound(seed: Entry, rest: seq<Entry>, room: nat, minOverlap: nat)
    requires Sorted(IdBefore, rest)
    ensures var picked := Picked(seed, rest, room, minOverlap);
            && |picked| <= room && Sorted(IdBefore, picked)
            && (forall r :: r in picked ==> r in rest && Overlaps(seed, r, minOverlap))
    ensures var left := Left(seed, rest, room, minOverlap);
            Sorted(IdBefore, left) && forall r :: r in left ==> r in rest
  {
    if rest != [] && room != 0 {
      var room' := if Overlaps(seed, rest[0], minOverlap) then room - 1 else room;
      var picked, left := Picked(seed, rest[1..], room', minOverlap), Left(seed, rest[1..], room', minOverlap);
      PickedIsSound(seed, rest[1..], room', minOverlap);
      assert forall r :: r in rest[1..] ==> IdBefore(rest[0], r);
      SortedCons(IdBefore, rest[0], picked);
      SortedCons(IdBefore, rest[0], left);
    }
  }

  // Greed: a seed whose group is not full leaves behind no record that overlaps with it.
  lemma {:induction false} LeftDoesNotOverlap(seed: Entry, rest: seq<Entry>, room: nat, minOverlap: nat)
    requires |Picked(seed, rest, room, minOverlap)| < room
    ensures forall r :: r in Left(seed, rest, room, minOverlap) ==> !Overlaps(seed, r, minOverlap)
  {
    if rest != [] {
      LeftDoesNotOverlap(seed, rest[1..], if Overlaps(seed, rest[0], minOverlap) then room - 1 else room, minOverlap);
    }
  }

  lemma SeedLeads(seed: Entry, rest: seq<Entry>, maxSize: Size, minOverlap: nat)
    requires Sorted(IdBefore, [seed] + rest)
    ensures var g := [seed] + Picked(seed, rest, maxSize - 1, minOverlap);
            LedBySeed(g, minOverlap) && |g| <= maxSize
    ensures Sorted(IdBefore, Left(seed, rest, maxSize - 1, minOverlap))
  {
    var picked := Picked(seed, rest, maxSize - 1, minOverlap);
    SortedTail(IdBefore, seed, rest);
    PickedIsSound(seed, rest, maxSize - 1, minOverlap);
    SortedCons(IdBefore, seed, picked);
    assert forall k :: 0 <= k < |picked| ==> picked[k] in picked;
  }

  lemma {:induction false} TagGroupsSound(sorted: seq<Entry>, maxSize: Size, minOverlap: nat)
    requires Sorted(IdBefore, sorted)
    ensures forall g :: g in TagGroups(sorted, maxSize, minOverlap) ==> LedBySeed(g, minOverlap) && |g| <= maxSize
    decreases |sorted|
  {
    if sorted != [] {
      assert sorted == [sorted[0]] + sorted[1..];
      SeedLeads(sorted[0], sorted[1..], maxSize, minOverlap);
      TagGroupsSound(Left(sorted[0], sorted[1..], maxSize - 1, minOverlap), maxSize, minOverlap);
    }
  }

  // Two tag groups in the order they were opened: the earlier one is full, or it wanted nothing from the later one.
  lemma {:induction false} TagGroupsGreedy(sorted: seq<Entry>, maxSize: Size, minOverlap: nat, i: nat, j: nat)
    requires var groups := TagGroups(sorted, maxSize, minOverlap);
             i < j < |groups| && |groups[i]| < maxSize
    ensures var groups := TagGroups(sorted, maxSize, minOverlap);
            groups[i] != [] && forall r :: r in groups[j] ==> !Overlaps(groups[i][0], r, minOverlap)
    decreases |sorted|
  {
    var seed, rest, room := sorted[0], sorted[1..], maxSize - 1;
    var picked, left := Picked(seed, rest, room, minOverlap), Left(seed, rest, room, minOverlap);
    var g, later := [seed] + picked, TagGroups(left, maxSize, minOverlap);
    var groups := TagGroups(sorted, maxSize, minOverlap);
    assert groups == [g] + later;
    if i == 0 {
      LeftDoesNotOverlap(seed, rest, room, minOverlap);
      TagGroupsPartition(left, maxSize, minOverlap);
      SameElements(Flatten(later), left);
      forall r | r in groups[j] ensures !Overlaps(seed, r, minOverlap) {
        assert groups[j] == later[j - 1];
        InFlatten(later, later[j - 1], r);
      }
    } else {
      TagGroupsGreedy(left, maxSize, minOverlap, i - 1, j - 1);
      assert groups[i] == later[i - 1] && groups[j] == later[j - 1];
    }
  }

  // A full group left something behind only after everything it took.
  lemma {:induction false} LeftComesLater(seed: Entry, rest: seq<Entry>, room: nat, minOverlap: nat, r: Entry)
    requires Sorted(IdBefore, rest) && r in Left(seed, rest, room, minOverlap) && Overlaps(seed, r, minOverlap)
    ensures |Picked(seed, rest, room, minOverlap)| == room
    ensures forall q :: q in Picked(seed, rest, room, minOverlap) ==> q.id <= r.id
  {
    if room != 0 {
      var first, tail := rest[0], rest[1..];
      var room' := if Overlaps(seed, first, minOverlap) then room - 1 else room;
      assert r in Left(seed, tail, room', minOverlap);
      PickedIsSound(seed, tail, room', minOverlap);
      LeftComesLater(seed, tail, room', minOverlap, r);
      assert IdBefore(first, r);
    }
  }

  // First come, first served: a group is opened by the first record that is left, so by none after those of the later
  // groups; and a record that overlaps with its seed went to a later group only because the group was full of records
  // that come before it.
  lemma {:induction false} TagGroupsFirstCome(sorted: seq<Entry>, maxSize: Size, minOverlap: nat, i: nat, j: nat,
                                              r: Entry)
    requires Sorted(IdBefore, sorted) && i < j < |TagGroups(sorted, maxSize, minOverlap)|
    requires r in TagGroups(sorted, maxSize, minOverlap)[j]
    ensures
      var g := TagGroups(sorted, maxSize, minOverlap)[i];
      && g != [] && g[0].id <= r.id
      && (|g[0].tags * r.tags| >= minOverlap ==> |g| == maxSize && forall q :: q in g ==> q.id <= r.id)
    decreases |sorted|
  {
    var seed, rest, room := sorted[0], sorted[1..], maxSize - 1;
    var picked, left := Picked(seed, rest, room, minOverlap), Left(seed, rest, room, minOverlap);
    var g, later := [seed] + picked, TagGroups(left, maxSize, minOverlap);
    assert TagGroups(sorted, maxSize, minOverlap) == [g] + later;
    assert sorted == [seed] + rest;
    SeedLeads(seed, rest, maxSize, minOverlap);
    if i == 0 {
      assert r in later[j - 1];
      InFlatten(later, later[j - 1], r);
      TagGroupsPartition(left, maxSize, minOverlap);
      SameElements(Flatten(later), left);
      SortedTail(IdBefore, seed, rest);
      PickedIsSound(seed, rest, room, minOverlap);
      if Overlaps(seed, r, minOverlap) {
        LeftComesLater(seed, rest, room, minOverlap, r);
      }
    } else {
      TagGroupsFirstCome(left, maxSize, minOverlap, i - 1, j - 1, r);
    }
  }

  // So for the settings of a configuration, of which the overlap is one tag unless it says otherwise.
  lemma TagGroupsOfConfig(config: Config, records: seq<Entry>, i: nat, j: nat, r: Entry)
    requires config.strategy.ByTag? && i < j < |Groups(config, records)| && r in Groups(config, records)[j]
    ensures
      var g := Groups(config, records)[i];
      var minOverlap := if config.tagOverlapMin.Some? then config.tagOverlapMin.value else 1;
      && g != [] && g[0].id <= r.id
      && (|g[0].tags * r.tags| >= minOverlap ==> |g| == config.maxSize && forall q :: q in g ==> q.id <= r.id)
  {
    IdBeforeIsTotal();
    SortCorrect(IdBefore, records);
    TagGroupsFirstCome(Sort(IdBefore, records), config.maxSize, config.MinOverlap(), i, j, r);
  }

  // Every chunk but the last is full, and they are consecutive pieces of the list.
  lemma {:induction false} ChunksAreFull(sorted: seq<Entry>, maxSize: Size, i: nat)
    requires i < |Chunks(sorted, maxSize)|
    ensures i < |Chunks(sorted, maxSize)| - 1 ==> |Chunks(sorted, maxSize)[i]| == maxSize
    ensures i * maxSize < |sorted| && Chunks(sorted, maxSize)[i] <= sorted[i * maxSize..]
  {
    if |sorted| > maxSize && i > 0 {
      ChunksAreFull(sorted[maxSize..], maxSize, i - 1);
      assert Chunks(sorted, maxSize)[i] == Chunks(sorted[maxSize..], maxSize)[i - 1];
      assert (i - 1) * maxSize + maxSize == i * maxSize;
      assert sorted[maxSize..][(i - 1) * maxSize..] == sorted[i * maxSize..];
    } else {
      assert Chunks(sorted, maxSize)[i] <= sorted;
    }
  }

  // A project is listed before those that first appear later.
  lemma {:induction false} KeysByFirstAppearance(records: seq<Entry>, i: nat, j: nat) returns (p: nat)
    requires i < j < |Keys(records)|
    ensures p < |records| && records[p].project == Keys(records)[i]
    ensures forall q :: 0 <= q <= p ==> records[q].project != Keys(records)[j]
  {
    var n := |records| - 1;
    var before := records[..n];
    if j < |Keys(before)| {
      p := KeysByFirstAppearance(before, i, j);
    } else {
      assert Keys(records)[j] == records[n].project && records[n].project !in Keys(before);
      assert Keys(records)[i] == Keys(before)[i] && Keys(before)[i] in Keys(before);
      p :| 0 <= p < n && before[p].project == Keys(before)[i];
      forall q | 0 <= q <= p ensures records[q].project != Keys(records)[j] {
        assert before[q] == records[q];
        assert before[q].project in Keys(before);
      }
    }
  }

  // Which records are grouped at all: a hard-deleted one is.
  lemma GroupedExactly(config: Config, records: seq<Entry>, r: Entry)
    ensures r in Flatten(Groups(config, Filter(Eligible, records))) <==>
              r in records && r.status in {Active, HardDeleted}
  {
    var active := Filter(Eligible, records);
    FilterContents(Eligible, records);
    GroupsPartition(config, active);
    SameElements(active, Flatten(Groups(config, active)));
  }

  // Of the groups those are clusters that reach the minimum.
  lemma ClusteredExactly(config: Config, records: seq<Entry>, g: Group)
    ensures g in ClusterGroups(config, records) <==>
              g in Groups(config, Filter(Eligible, records)) && |g| >= config.minSize
  {
    FilterContents(LargeEnough(config.minSize), Groups(config, Filter(Eligible, records)));
  }

  lemma {:induction false} ChunksSorted(sorted: seq<Entry>, maxSize: Size, g: Group)
    requires Sorted(IdBefore, sorted) && g in Chunks(sorted, maxSize)
    ensures Sorted(IdBefore, g)
  {
    if |sorted| > maxSize && g in Chunks(sorted[maxSize..], maxSize) {
      ChunksSorted(sorted[maxSize..], maxSize, g);
    }
  }

  // Every group lists its records by id.
  lemma GroupsInIdOrder(config: Config, records: seq<Entry>, g: Group, i: nat, j: nat)
    requires g in Groups(config, records) && i < j < |g|
    ensures g[i].id <= g[j].id
  {
    IdBeforeIsTotal();
    if config.strategy.ByTag? {
      SortCorrect(IdBefore, records);
      TagGroupsSound(Sort(IdBefore, records), config.maxSize, config.MinOverlap());
    } else {
      InProjectGroups(Keys(records), records, config.maxSize, g);
      var k :| k in Keys(records) && g in Chunks(Sort(IdBefore, Filter(InProject(k), records)), config.maxSize);
      SortCorrect(IdBefore, Filter(InProject(k), records));
      ChunksSorted(Sort(IdBefore, Filter(InProject(k), records)), config.maxSize, g);
    }
    assert IdBefore(g[i], g[j]);
  }

  // Clusters are within the size bounds, hold eligible input records only, never share a record, and
  // hang together: by overlap with the first record, or by project.
  lemma ClustersSound(config: Config, records: seq<Entry>)
    requires DistinctIds(records)
    ensures var cs := ClusterGroups(config, records);
            && (forall g :: g in cs ==> config.minSize <= |g| <= config.maxSize)
            && (forall g, r :: g in cs && r in g ==> r in records && r.status in {Active, HardDeleted})
            && (forall g, h, r, q :: g in cs && h in cs && r in g && q in h && r.id == q.id ==> g == h)
            && (config.strategy.ByTag? ==>
                  var minOverlap := if config.tagOverlapMin.Some? then config.tagOverlapMin.value else 1;
                  forall g: Group, r :: g in cs && r in g ==> r == g[0] || |g[0].tags * r.tags| >= minOverlap)
            && (!config.strategy.ByTag? ==> forall g, r, q :: g in cs && r in g && q in g ==> r.project == q.project)
  {
    hide Groups;
    var active := Filter(Eligible, records);
    FilterContents(Eligible, records);
    FilterContents(LargeEnough(config.minSize), Groups(config, active));
    FilterDistinct(Eligible, records);
    forall g, h, r, q | g in Groups(config, active) && h in Groups(config, active) && r in g && q in h && r.id == q.id
      ensures g == h
    {
      GroupsMeetOnlyThemselves(config, active, g, h, r, q);
    }
    forall g | g in Groups(config, active)
      ensures |g| <= config.maxSize && forall r :: r in g ==> r in active
      ensures if config.strategy.ByTag? then LedBySeed(g, config.MinOverlap())
              else forall r, q :: r in g && q in g ==> r.project == q.project
    {
      GroupSound(config, active, g);
    }
  }

  lemma GroupSound(config: Config, records: seq<Entry>, g: Group)
    requires g in Groups(config, records)
    ensures |g| <= config.maxSize && forall r :: r in g ==> r in records
    ensures if config.strategy.ByTag? then LedBySeed(g, config.MinOverlap())
            else forall r, q :: r in g && q in g ==> r.project == q.project
  {
    GroupsPartition(config, records);
    SameElements(records, Flatten(Groups(config, records)));
    forall r | r in g ensures r in records {
      InFlatten(Groups(config, records), g, r);
    }
    if config.strategy.ByTag? {
      IdBeforeIsTotal();
      SortCorrect(IdBefore, records);
      TagGroupsSound(Sort(IdBefore, records), config.maxSize, config.MinOverlap());
    } else {
      InProjectGroups(Keys(records), records, config.maxSize, g);
      var k :| k in Keys(records) && g in Chunks(Sort(IdBefore, Filter(InProject(k), records)), config.maxSize);
      KeyOfProjectGroup(records, k, config.maxSize, g);
    }
  }

  lemma {:induction false} FilterDistinct(p: Entry -> bool, records: seq<Entry>)
    requires DistinctIds(records)
    ensures DistinctIds(Filter(p, records))
  {
    if records != [] {
      FilterDistinct(p, records[1..]);
      FilterContents(p, records[1..]);
      var rest := Filter(p, records[1..]);
      assert forall r :: r in records[1..] ==> r.id != records[0].id;
      assert forall i :: 0 <= i < |rest| ==> rest[i] in rest;
    }
  }

  /******* Canonicity *******/

  lemma OutsideNothing(records: seq<Entry>)
    ensures Filter(Outside({}), records) == records
  {
    FilterAll(Outside({}), records);
  }

  // The same records in any order give the same clusters; for the tag strategy even in the same order.
  lemma ClustersCanonical(config: Config, a: seq<Entry>, b: seq<Entry>)
    requires DistinctIds(a) && multiset(a) == multiset(b)
    ensures forall g :: g in ClusterGroups(config, a) <==> g in ClusterGroups(config, b)
    ensures config.strategy.ByTag? ==> ClusterGroups(config, a) == ClusterGroups(config, b)
  {
    var a', b' := Filter(Eligible, a), Filter(Eligible, b);
    FilterPermutes(Eligible, a, b);
    FilterDistinct(Eligible, a);
    OutsideNothing(a');
    GroupsSurvive(config, a', b', {});
    FilterContents(LargeEnough(config.minSize), Groups(config, a'));
    FilterContents(LargeEnough(config.minSize), Groups(config, b'));
    IdBeforeIsTotal();
    DistinctIdsDoNotTie(a');
    SortCanonical(IdBefore, a', b');
  }

  function ProjectClusters(config: Config, records: seq<Entry>, k: Option<ProjectId>): seq<Group> {
    Filter(LargeEnough(config.minSize), Chunks(Sort(IdBefore, Filter(InProject(k), records)), config.maxSize))
  }

  function ListByKeys(config: Config, records: seq<Entry>, keys: seq<Option<ProjectId>>): seq<Group> {
    if keys == [] then [] else ProjectClusters(config, records, keys[0]) + ListByKeys(config, records, keys[1..])
  }

  // The projects that own a cluster, in order of first appearance.
  function ClusteredKeys(config: Config, records: seq<Entry>, keys: seq<Option<ProjectId>>): seq<Option<ProjectId>> {
    if keys == [] then []
    else
      (if ProjectClusters(config, records, keys[0]) != [] then [keys[0]] else [])
      + ClusteredKeys(config, records, keys[1..])
  }

  lemma {:induction false} ProjectListByKeys(config: Config, records: seq<Entry>, keys: seq<Option<ProjectId>>)
    ensures Filter(LargeEnough(config.minSize), ProjectGroups(keys, records, config.maxSize)) ==
            ListByKeys(config, records, keys)
    ensures ListByKeys(config, records, keys) == ListByKeys(config, records, ClusteredKeys(config, records, keys))
    ensures forall k :: k in ClusteredKeys(config, records, keys) ==> ProjectClusters(config, records, k) != []
  {
    if keys != [] {
      var rest := ClusteredKeys(config, records, keys[1..]);
      ProjectListByKeys(config, records, keys[1..]);
      FilterAppend(LargeEnough(config.minSize),
                   Chunks(Sort(IdBefore, Filter(InProject(keys[0]), records)), config.maxSize),
                   ProjectGroups(keys[1..], records, config.maxSize));
      assert ([keys[0]] + rest)[1..] == rest && [] + rest == rest;
      assert [] + ListByKeys(config, records, keys[1..]) == ListByKeys(config, records, keys[1..]);
    }
  }

  lemma ProjectClustersCanonical(config: Config, a: seq<Entry>, b: seq<Entry>, k: Option<ProjectId>)
    requires DistinctIds(a) && multiset(a) == multiset(b)
    ensures ProjectClusters(config, a, k) == ProjectClusters(config, b, k)
  {
    IdBeforeIsTotal();
    FilterPermutes(InProject(k), a, b);
    SubsequenceDistinct(a, InProject(k));
    SortCanonical(IdBefore, Filter(InProject(k), a), Filter(InProject(k), b));
  }

  lemma FirstRecordTellsKey(config: Config, records: seq<Entry>, k: Option<ProjectId>)
    requires ProjectClusters(config, records, k) != []
    ensures var g := ProjectClusters(config, records, k)[0]; g != [] && g[0].project == k
  {
    var chunks := Chunks(Sort(IdBefore, Filter(InProject(k), records)), config.maxSize);
    FilterContents(LargeEnough(config.minSize), chunks);
    var g := ProjectClusters(config, records, k)[0];
    assert g in ProjectClusters(config, records, k);
    KeyOfProjectGroup(records, k, config.maxSize, g);
  }

  lemma StripPrefix<T>(c: seq<T>, xs: seq<T>, ys: seq<T>)
    ensures c + xs == c + ys <==> xs == ys
  {
    assert (c + xs)[|c|..] == xs && (c + ys)[|c|..] == ys;
  }

  lemma {:induction false} ListTellsKeys(config: Config, a: seq<Entry>, b: seq<Entry>, ka: seq<Option<ProjectId>>,
                                         kb: seq<Option<ProjectId>>)
    requires DistinctIds(a) && multiset(a) == multiset(b)
    requires forall k :: k in ka ==> ProjectClusters(config, a, k) != []
    requires forall k :: k in kb ==> ProjectClusters(config, b, k) != []
    ensures ListByKeys(config, a, ka) == ListByKeys(config, b, kb) <==> ka == kb
  {
    if ka != [] && kb != [] {
      var ca, cb := ProjectClusters(config, a, ka[0]), ProjectClusters(config, b, kb[0]);
      FirstRecordTellsKey(config, a, ka[0]);
      FirstRecordTellsKey(config, b, kb[0]);
      if ka[0] == kb[0] {
        ProjectClustersCanonical(config, a, b, ka[0]);
        ListTellsKeys(config, a, b, ka[1..], kb[1..]);
        StripPrefix(ca, ListByKeys(config, a, ka[1..]), ListByKeys(config, b, kb[1..]));
        StripPrefix([ka[0]], ka[1..], kb[1..]);
        assert ka == [ka[0]] + ka[1..] && kb == [kb[0]] + kb[1..];
      } else {
        assert ListByKeys(config, a, ka)[0] == ca[0] && ListByKeys(config, b, kb)[0] == cb[0];
      }
    } else if ka != [] {
      assert ka[0] in ka;
    } else if kb != [] {
      assert kb[0] in kb;
    }
  }

  // The project strategy lists the same clusters in the same order exactly when the projects that own
  // a cluster first appear in the same order.
  lemma ProjectOrderExact(config: Config, a: seq<Entry>, b: seq<Entry>)
    requires !config.strategy.ByTag? && DistinctIds(a) && multiset(a) == multiset(b)
    ensures var a', b' := Filter(Eligible, a), Filter(Eligible, b);
            ClusterGroups(config, a) == ClusterGroups(config, b) <==>
            ClusteredKeys(config, a', Keys(a')) == ClusteredKeys(config, b', Keys(b'))
  {
    var a', b' := Filter(Eligible, a), Filter(Eligible, b);
    FilterDistinct(Eligible, a);
    FilterPermutes(Eligible, a, b);
    ProjectListByKeys(config, a', Keys(a'));
    ProjectListByKeys(config, b', Keys(b'));
    ListTellsKeys(config, a', b', ClusteredKeys(config, a', Keys(a')), ClusteredKeys(config, b', Keys(b')));
  }

  function Sample(id: EntryId, project: ProjectId): Entry {
    Entry(id, ExperienceRecord, "", Project, Some(project), 1.0, Neutral, 0, {}, 0, 0, DomainVersioned, Active,
          None, None, None, ProjectPlacement, None, [])
  }

  lemma PairIsCluster(config: Config, x: Entry, y: Entry, records: seq<Entry>)
    requires config.minSize == 2 && config.maxSize == 3 && x.id < y.id
    requires Filter(InProject(x.project), records) == [x, y]
    ensures ProjectClusters(config, records, x.project) == [[x, y]]
  {
    IdBeforeIsTotal();
    DistinctIdsDoNotTie([x, y]);
    SortOfSorted(IdBefore, [x, y]);
    FilterAll(LargeEnough(2), [[x, y]]);
  }

  predicate Leads(config: Config, records: seq<Entry>, k: Option<ProjectId>) {
    var keys := ClusteredKeys(config, records, Keys(records));
    keys != [] && keys[0] == k
  }

  lemma FirstProjectLeads(config: Config, p: seq<Entry>, q: seq<Entry>)
    requires config.minSize == 2 && config.maxSize == 3 && |p| == 2 && p[0].id < p[1].id
    requires p[0].project == p[1].project && forall r :: r in q ==> r.project != p[0].project
    ensures Leads(config, p + q, p[0].project)
  {
    var own := InProject(p[0].project);
    FilterAppend(own, p, q);
    FilterAll(own, p);
    FilterNone(own, q);
    assert p == [p[0], p[1]] && p + [] == p;
    PairIsCluster(config, p[0], p[1], p + q);
    KeysStartAlike(p + q);
  }

  lemma FourEligible(p: seq<Entry>, q: seq<Entry>)
    requires |p| == |q| == 2 && Eligible(p[0]) && Eligible(p[1]) && Eligible(q[0]) && Eligible(q[1])
    ensures Filter(Eligible, p + q) == p + q
  {
    FilterAll(Eligible, p + q);
  }

  lemma FourDistinct(p: seq<Entry>, q: seq<Entry>)
    requires |p| == |q| == 2 && p[0].id < p[1].id < q[0].id < q[1].id
    ensures DistinctIds(p + q)
  {
  }

  lemma LeadersTellLists(config: Config, a: seq<Entry>, b: seq<Entry>, j: Option<ProjectId>, k: Option<ProjectId>)
    requires !config.strategy.ByTag? && DistinctIds(a) && multiset(a) == multiset(b)
    requires Filter(Eligible, a) == a && Filter(Eligible, b) == b
    requires Leads(config, a, j) && Leads(config, b, k) && j != k
    ensures ClusterGroups(config, a) != ClusterGroups(config, b)
  {
    ProjectOrderExact(config, a, b);
  }

  lemma SameProject(p: seq<Entry>)
    requires |p| == 2 && p[0].project == p[1].project
    ensures forall r :: r in p ==> r.project == p[0].project
  {
  }

  lemma TwoProjectsTwoOrders(config: Config, p: seq<Entry>, q: seq<Entry>)
    requires config.minSize == 2 && config.maxSize == 3 && !config.strategy.ByTag?
    requires |p| == |q| == 2 && p[0].id < p[1].id && q[0].id < q[1].id && DistinctIds(p + q)
    requires p[0].project == p[1].project && q[0].project == q[1].project && p[0].project != q[0].project
    requires Filter(Eligible, p + q) == p + q && Filter(Eligible, q + p) == q + p
    ensures multiset(p + q) == multiset(q + p) && ClusterGroups(config, p + q) != ClusterGroups(config, q + p)
  {
    hide ClusterGroups, Filter, Leads;
    SameProject(p);
    SameProject(q);
    assert multiset(p + q) == multiset(p) + multiset(q) == multiset(q + p);
    FirstProjectLeads(config, p, q);
    FirstProjectLeads(config, q, p);
    LeadersTellLists(config, p + q, q + p, p[0].project, q[0].project);
  }

  // Two orders of the same four records list the two clusters in two orders.
  lemma ProjectOrderDependsOnInput() returns (config: Config, a: seq<Entry>, b: seq<Entry>)
    ensures config.Valid() && DistinctIds(a) && multiset(a) == multiset(b)
    ensures ClusterGroups(config, a) != ClusterGroups(config, b)
  {
    config := Config(2, 3, ByProject, None);
    var p, q := [Sample(1, 0), Sample(2, 0)], [Sample(3, 1), Sample(4, 1)];
    FourEligible(p, q);
    FourEligible(q, p);
    FourDistinct(p, q);
    TwoProjectsTwoOrders(config, p, q);
    a, b := p + q, q + p;
  }

  lemma {:induction false} KeysStartAlike(records: seq<Entry>)
    requires records != []
    ensures Keys(records) != [] && Keys(records)[0] == records[0].project
  {
    if |records| > 1 {
      KeysStartAlike(records[..|records| - 1]);
    } else {
      assert records[..0] == [];
    }
  }

  /******* Ids that occur more than once *******/

  function IdSet(g: Group): set<EntryId> {
    set id | id in Ids(g)
  }

  // What is left of the records once those with the given ids are gone.
  function Without(gone: set<EntryId>, records: seq<Entry>): (r: seq<Entry>)
    ensures |r| <= |records|
  {
    FilterShrinks(Outside(gone), records);
    Filter(Outside(gone), records)
  }

  // As Picked, but an id that was picked once is not picked again.
  function Chosen(seed: Entry, rest: seq<Entry>, room: nat, minOverlap: nat): seq<Entry>
    decreases |rest|
  {
    if rest == [] || room == 0 then []
    else if Overlaps(seed, rest[0], minOverlap)
      then [rest[0]] + Chosen(seed, Without({rest[0].id}, rest[1..]), room - 1, minOverlap)
    else Chosen(seed, rest[1..], room, minOverlap)
  }

  function FirstGroup(sorted: seq<Entry>, maxSize: Size, minOverlap: nat): Group
    requires sorted != []
  {
    [sorted[0]] + Chosen(sorted[0], Without({sorted[0].id}, sorted[1..]), maxSize - 1, minOverlap)
  }

  // The tag groups of records among which an id may occur more than once.
  function GreedyGroups(sorted: seq<Entry>, maxSize: Size, minOverlap: nat): seq<Group>
    decreases |sorted|
  {
    if sorted == [] then []
    else
      var g := FirstGroup(sorted, maxSize, minOverlap);
      [g] + GreedyGroups(Without(IdSet(g), sorted[1..]), maxSize, minOverlap)
  }

  // What identifyClusters finds in any list of records.
  function Clusters(config: Config, records: seq<Entry>): seq<Group> {
    var active := Filter(Eligible, records);
    Filter(LargeEnough(config.minSize),
           if config.strategy.ByTag? then GreedyGroups(Sort(IdBefore, active), config.maxSize, config.MinOverlap())
           else ProjectGroups(Keys(active), active, config.maxSize))
  }

  lemma IdSetContents(g: Group)
    ensures forall r :: r in g ==> r.id in IdSet(g)
    ensures forall id :: id in IdSet(g) ==> exists r :: r in g && r.id == id
  {
    IdsContents(g);
  }

  lemma IdSetGrows(g: Group, r: Entry)
    ensures IdSet(g + [r]) == IdSet(g) + {r.id}
  {
    IdSetContents(g);
    IdSetContents(g + [r]);
  }

  lemma IdSetCons(r: Entry, g: Group)
    ensures IdSet([r] + g) == {r.id} + IdSet(g)
  {
    IdSetContents(g);
    IdSetContents([r] + g);
  }

  lemma {:induction false} WithoutTwice(a: set<EntryId>, b: set<EntryId>, records: seq<Entry>)
    ensures Without(a, Without(b, records)) == Without(b + a, records)
  {
    if records != [] {
      WithoutTwice(a, b, records[1..]);
      FilterCons(Outside(a), records[0], Without(b, records[1..]));
    }
  }

  lemma WithoutAbsent(id: EntryId, records: seq<Entry>)
    requires forall r :: r in records ==> r.id != id
    ensures Without({id}, records) == records
  {
    FilterAll(Outside({id}), records);
  }

  lemma HeadIsAlone(records: seq<Entry>)
    requires DistinctIds(records) && records != []
    ensures DistinctIds(records[1..]) && Without({records[0].id}, records[1..]) == records[1..]
  {
    WithoutAbsent(records[0].id, records[1..]);
  }

  lemma {:induction false} ChosenOfDistinct(seed: Entry, rest: seq<Entry>, room: nat, minOverlap: nat)
    requires DistinctIds(rest)
    ensures Chosen(seed, rest, room, minOverlap) == Picked(seed, rest, room, minOverlap)
    ensures Without(IdSet(Picked(seed, rest, room, minOverlap)), rest) == Left(seed, rest, room, minOverlap)
  {
    if rest == [] || room == 0 {
      assert IdSet([]) == {};
      OutsideNothing(rest);
    } else {
      var r, tail := rest[0], rest[1..];
      HeadIsAlone(rest);
      assert rest == [r] + tail;
      if Overlaps(seed, r, minOverlap) {
        var picked := Picked(seed, tail, room - 1, minOverlap);
        ChosenOfDistinct(seed, tail, room - 1, minOverlap);
        IdSetCons(r, picked);
        FilterCons(Outside({r.id} + IdSet(picked)), r, tail);
        WithoutTwice(IdSet(picked), {r.id}, tail);
      } else {
        var picked := Picked(seed, tail, room, minOverlap);
        ChosenOfDistinct(seed, tail, room, minOverlap);
        FilterCons(Outside(IdSet(picked)), r, tail);
        PickedIsAmong(seed, tail, room, minOverlap);
        IdSetContents(picked);
        assert r.id !in IdSet(picked);
      }
    }
  }

  lemma {:induction false} PickedIsAmong(seed: Entry, rest: seq<Entry>, room: nat, minOverlap: nat)
    ensures forall r :: r in Picked(seed, rest, room, minOverlap) ==> r in rest
  {
    if rest != [] && room != 0 {
      PickedIsAmong(seed, rest[1..], if Overlaps(seed, rest[0], minOverlap) then room - 1 else room, minOverlap);
    }
  }

  lemma FirstGroupOfDistinct(sorted: seq<Entry>, maxSize: Size, minOverlap: nat)
    requires DistinctIds(sorted) && sorted != []
    ensures var g := FirstGroup(sorted, maxSize, minOverlap);
            && g == [sorted[0]] + Picked(sorted[0], sorted[1..], maxSize - 1, minOverlap)
            && Without(IdSet(g), sorted[1..]) == Left(sorted[0], sorted[1..], maxSize - 1, minOverlap)
  {
    var seed, rest := sorted[0], sorted[1..];
    var picked := Picked(seed, rest, maxSize - 1, minOverlap);
    HeadIsAlone(sorted);
    ChosenOfDistinct(seed, rest, maxSize - 1, minOverlap);
    IdSetCons(seed, picked);
    WithoutTwice(IdSet(picked), {seed.id}, rest);
  }

  // Without repeated ids these are the groups of the simpler recursion.
  lemma {:induction false} GreedyIsTagGroups(sorted: seq<Entry>, maxSize: Size, minOverlap: nat)
    requires DistinctIds(sorted)
    ensures GreedyGroups(sorted, maxSize, minOverlap) == TagGroups(sorted, maxSize, minOverlap)
    decreases |sorted|
  {
    if sorted != [] {
      var g := FirstGroup(sorted, maxSize, minOverlap);
      FirstGroupOfDistinct(sorted, maxSize, minOverlap);
      FilterDistinct(Outside(IdSet(g)), sorted[1..]);
      GreedyIsTagGroups(Without(IdSet(g), sorted[1..]), maxSize, minOverlap);
    }
  }

  // Where no id repeats, as among the records of a query, the clusters are those of the simple specification.
  lemma ClustersOfDistinct(config: Config, records: seq<Entry>)
    requires DistinctIds(records)
    ensures Clusters(config, records) == ClusterGroups(config, records)
  {
    var active := Filter(Eligible, records);
    FilterDistinct(Eligible, records);
    SortedDistinct(active);
    GreedyIsTagGroups(Sort(IdBefore, active), config.maxSize, config.MinOverlap());
  }

  lemma {:induction false} ChosenIsSound(seed: Entry, rest: seq<Entry>, room: nat, minOverlap: nat)
    ensures var chosen := Chosen(seed, rest, room, minOverlap);
            && |chosen| <= room && DistinctIds(chosen) && (forall r :: r in chosen ==> r in rest)
            && (Sorted(IdBefore, rest) ==> Sorted(IdBefore, chosen))
    decreases |rest|
  {
    if rest == [] || room == 0 {
    } else if Overlaps(seed, rest[0], minOverlap) {
      var r, left := rest[0], Without({rest[0].id}, rest[1..]);
      var chosen := Chosen(seed, left, room - 1, minOverlap);
      ChosenIsSound(seed, left, room - 1, minOverlap);
      FilterContents(Outside({r.id}), rest[1..]);
      if Sorted(IdBefore, rest) {
        FilterSorted(IdBefore, Outside({r.id}), rest[1..]);
        SortedCons(IdBefore, r, chosen);
      }
      HeadJoinsDistinct(r, chosen);
    } else {
      ChosenIsSound(seed, rest[1..], room, minOverlap);
    }
  }

  lemma HeadJoinsDistinct(r: Entry, g: Group)
    requires DistinctIds(g) && forall q :: q in g ==> q.id != r.id
    ensures DistinctIds([r] + g)
  {
    assert forall k :: 0 <= k < |g| ==> g[k] in g;
  }

  lemma FirstGroupIsSound(sorted: seq<Entry>, maxSize: Size, minOverlap: nat)
    requires sorted != []
    ensures var g := FirstGroup(sorted, maxSize, minOverlap);
            && DistinctIds(g) && (forall r :: r in g ==> r in sorted)
            && (Sorted(IdBefore, sorted) ==> Sorted(IdBefore, g))
  {
    var seed := sorted[0];
    var left := Without({seed.id}, sorted[1..]);
    var chosen := Chosen(seed, left, maxSize - 1, minOverlap);
    ChosenIsSound(seed, left, maxSize - 1, minOverlap);
    FilterContents(Outside({seed.id}), sorted[1..]);
    HeadJoinsDistinct(seed, chosen);
    if Sorted(IdBefore, sorted) {
      FilterSorted(IdBefore, Outside({seed.id}), sorted[1..]);
      SortedCons(IdBefore, seed, chosen);
    }
  }

  // Whatever the input: the tag groups use every id of it, each exactly once.
  lemma {:induction false} GreedyUsesEachIdOnce(sorted: seq<Entry>, maxSize: Size, minOverlap: nat)
    ensures var all := Flatten(GreedyGroups(sorted, maxSize, minOverlap));
            DistinctIds(all) && (forall r :: r in all ==> r in sorted) && IdSet(all) == IdSet(sorted)
    decreases |sorted|
  {
    if sorted != [] {
      var g := FirstGroup(sorted, maxSize, minOverlap);
      var left := Without(IdSet(g), sorted[1..]);
      var groups := GreedyGroups(left, maxSize, minOverlap);
      FirstGroupIsSound(sorted, maxSize, minOverlap);
      GreedyUsesEachIdOnce(left, maxSize, minOverlap);
      FlattenCons(g, groups);
      FilterContents(Outside(IdSet(g)), sorted[1..]);
      IdSetContents(left);
      JoinedDistinct(g, Flatten(groups));
      IdSetAppend(g, Flatten(groups));
      IdSetSplits(g, left, sorted);
    }
  }

  lemma IdSetAppend(g: Group, h: Group)
    ensures IdSet(g + h) == IdSet(g) + IdSet(h)
  {
    IdSetContents(g);
    IdSetContents(h);
    IdSetContents(g + h);
    assert forall r :: r in g + h <==> r in g || r in h;
  }

  lemma IdSetSplits(g: Group, left: seq<Entry>, sorted: seq<Entry>)
    requires sorted != [] && g != [] && g[0] == sorted[0] && forall r :: r in g ==> r in sorted
    requires forall r :: r in left <==> r in sorted[1..] && r.id !in IdSet(g)
    ensures IdSet(sorted) == IdSet(g) + IdSet(left)
  {
    IdSetContents(g);
    IdSetContents(left);
    IdSetContents(sorted);
    assert sorted == [sorted[0]] + sorted[1..] && sorted[0] in g;
    forall r | r in sorted ensures r.id in IdSet(g) + IdSet(left) {
      assert r in sorted[1..] || r == sorted[0];
    }
  }

  lemma JoinedDistinct(g: Group, h: Group)
    requires DistinctIds(g) && DistinctIds(h) && IdSet(g) !! IdSet(h)
    ensures DistinctIds(g + h)
  {
    IdSetContents(g);
    IdSetContents(h);
    forall i, j | 0 <= i < |g| && 0 <= j < |h| ensures g[i].id != h[j].id {
      assert g[i] in g && h[j] in h;
    }
  }

  /******* The loops over the records *******/

  lemma SplitAt(sorted: seq<Entry>, used: set<EntryId>, j: nat)
    requires j < |sorted|
    ensures Without(used, sorted[j..]) ==
              (if sorted[j].id in used then [] else [sorted[j]]) + Without(used, sorted[j + 1..])
  {
    assert sorted[j..] == [sorted[j]] + sorted[j + 1..];
    FilterCons(Outside(used), sorted[j], sorted[j + 1..]);
  }

  // What the inner loop knows after looking at the first j records, if it is to end with goal.
  ghost predicate Collecting(goal: Group, sorted: seq<Entry>, maxSize: Size, minOverlap: nat, usedBefore: set<EntryId>,
                             group: Group, used: set<EntryId>, j: nat)
  {
    && j <= |sorted| && 1 <= |group| <= maxSize && used == usedBefore + IdSet(group)
    && group + Chosen(group[0], Without(used, sorted[j..]), maxSize - |group|, minOverlap) == goal
  }

  predicate Takes(seed: Entry, other: Entry, maxSize: Size, minOverlap: nat, group: Group, used: set<EntryId>) {
    other.id !in used && |group| < maxSize && Overlaps(seed, other, minOverlap)
  }

  lemma CollectStarts(sorted: seq<Entry>, at: nat, usedBefore: set<EntryId>, maxSize: Size, minOverlap: nat)
    requires at < |sorted| && sorted[at].id !in usedBefore && forall k :: 0 <= k < at ==> sorted[k].id in usedBefore
    ensures var rest := Without(usedBefore, sorted[at..]);
            && rest != [] && rest[0] == sorted[at]
            && Collecting(FirstGroup(rest, maxSize, minOverlap), sorted, maxSize, minOverlap, usedBefore,
                          [sorted[at]], usedBefore + {sorted[at].id}, 0)
  {
    var seed := sorted[at];
    var rest := Without(usedBefore, sorted[at..]);
    SplitAt(sorted, usedBefore, at);
    assert rest[1..] == Without(usedBefore, sorted[at + 1..]);
    WithoutTwice({seed.id}, usedBefore, sorted[at + 1..]);
    UsedPrefix(sorted, usedBefore + {seed.id}, at);
    assert sorted[0..] == sorted;
    IdSetCons(seed, []);
    assert [seed] + [] == [seed];
  }

  lemma UsedPrefix(sorted: seq<Entry>, used: set<EntryId>, at: nat)
    requires at < |sorted| && forall k :: 0 <= k <= at ==> sorted[k].id in used
    ensures Without(used, sorted) == Without(used, sorted[at + 1..])
  {
    assert sorted == sorted[..at + 1] + sorted[at + 1..];
    FilterAppend(Outside(used), sorted[..at + 1], sorted[at + 1..]);
    FilterNone(Outside(used), sorted[..at + 1]);
  }

  lemma CollectPicks(goal: Group, sorted: seq<Entry>, maxSize: Size, minOverlap: nat, usedBefore: set<EntryId>,
                     group: Group, used: set<EntryId>, j: nat)
    requires Collecting(goal, sorted, maxSize, minOverlap, usedBefore, group, used, j) && j < |sorted|
    requires Takes(group[0], sorted[j], maxSize, minOverlap, group, used)
    ensures Collecting(goal, sorted, maxSize, minOverlap, usedBefore, group + [sorted[j]], used + {sorted[j].id}, j + 1)
  {
    var seed, other, room := group[0], sorted[j], maxSize - |group|;
    var after := Without(used, sorted[j + 1..]);
    SplitAt(sorted, used, j);
    assert ([other] + after)[1..] == after;
    WithoutTwice({other.id}, used, sorted[j + 1..]);
    IdSetGrows(group, other);
    Assoc(group, [other], Chosen(seed, Without({other.id}, after), room - 1, minOverlap));
  }

  lemma CollectPasses(goal: Group, sorted: seq<Entry>, maxSize: Size, minOverlap: nat, usedBefore: set<EntryId>,
                      group: Group, used: set<EntryId>, j: nat)
    requires Collecting(goal, sorted, maxSize, minOverlap, usedBefore, group, used, j) && j < |sorted|
    requires !Takes(group[0], sorted[j], maxSize, minOverlap, group, used)
    ensures Collecting(goal, sorted, maxSize, minOverlap, usedBefore, group, used, j + 1)
  {
    var after := Without(used, sorted[j + 1..]);
    SplitAt(sorted, used, j);
    assert [] + after == after;
    assert ([sorted[j]] + after)[1..] == after;
  }

  // The inner loop: gather the unused records that overlap with the seed sorted[at], up to maxSize.
  method CollectGroup(sorted: seq<Entry>, at: nat, usedBefore: set<EntryId>, maxSize: Size, minOverlap: nat)
    returns (group: Group, used: set<EntryId>)
    requires at < |sorted| && sorted[at].id !in usedBefore
    requires forall k :: 0 <= k < at ==> sorted[k].id in usedBefore
    ensures var rest := Without(usedBefore, sorted[at..]);
            rest != [] && group == FirstGroup(rest, maxSize, minOverlap)
    ensures used == usedBefore + IdSet(group)
  {
    var seed := sorted[at];
    group, used := [seed], usedBefore + {seed.id};
    CollectStarts(sorted, at, usedBefore, maxSize, minOverlap);
    ghost var goal := FirstGroup(Without(usedBefore, sorted[at..]), maxSize, minOverlap);
    var j := 0;
    while j < |sorted|
      invariant Collecting(goal, sorted, maxSize, minOverlap, usedBefore, group, used, j) && group[0] == seed
    {
      var other := sorted[j];
      if Takes(seed, other, maxSize, minOverlap, group, used) {
        CollectPicks(goal, sorted, maxSize, minOverlap, usedBefore, group, used, j);
        group := group + [other];
        used := used + {other.id};
      } else {
        CollectPasses(goal, sorted, maxSize, minOverlap, usedBefore, group, used, j);
      }
      j := j + 1;
    }
    assert sorted[|sorted|..] == [] && group + [] == group;
  }

  // One round of the outer loop: let record i seed a group, unless it is used.
  method ClusterRound(sorted: seq<Entry>, i: nat, usedBefore: set<EntryId>, before: seq<Group>, config: Config)
    returns (used: set<EntryId>, clusters: seq<Group>)
    requires i < |sorted| && Clustered(sorted, i, usedBefore, before, config)
    ensures Clustered(sorted, i + 1, used, clusters, config)
  {
    used, clusters := usedBefore, before;
    if sorted[i].id in used {
      ClusteredSkip(sorted, i, used, clusters, config);
      return;
    }
    var group, used' := CollectGroup(sorted, i, used, config.maxSize, config.MinOverlap());
    ClusteredStep(sorted, i, used, clusters, group, config);
    used := used';
    if |group| >= config.minSize {
      group := Sort(IdBefore, group);
      clusters := clusters + [group];
    }
  }

  method ClusterByTag(records: seq<Entry>, config: Config) returns (clusters: seq<Group>)
    ensures clusters ==
              Filter(LargeEnough(config.minSize),
                     GreedyGroups(Sort(IdBefore, records), config.maxSize, config.MinOverlap()))
  {
    var sorted := Sort(IdBefore, records);
    SortCorrectById(records);
    clusters := [];
    var used: set<EntryId> := {};
    ClusteringStarts(sorted, config);
    for i := 0 to |sorted|
      invariant Clustered(sorted, i, used, clusters, config)
    {
      used, clusters := ClusterRound(sorted, i, used, clusters, config);
    }
    ClusteringEnds(sorted, used, clusters, config);
  }

  // The large groups that the unused records from index i on will form.
  ghost function LargeTagGroups(sorted: seq<Entry>, i: nat, used: set<EntryId>, config: Config): seq<Group>
    requires i <= |sorted|
  {
    Filter(LargeEnough(config.minSize), GreedyGroups(Without(used, sorted[i..]), config.maxSize, config.MinOverlap()))
  }

  // The outer loop before record i: what is clustered so far, and what the unused records will still form, is
  // everything.
  ghost predicate Clustered(sorted: seq<Entry>, i: nat, used: set<EntryId>, clusters: seq<Group>, config: Config) {
    && i <= |sorted| && Sorted(IdBefore, sorted) && (forall k :: 0 <= k < i ==> sorted[k].id in used)
    && clusters + LargeTagGroups(sorted, i, used, config)
         == Filter(LargeEnough(config.minSize), GreedyGroups(sorted, config.maxSize, config.MinOverlap()))
  }

  lemma ClusteringStarts(sorted: seq<Entry>, config: Config)
    requires Sorted(IdBefore, sorted)
    ensures Clustered(sorted, 0, {}, [], config)
  {
    assert sorted[0..] == sorted;
    OutsideNothing(sorted);
    assert [] + LargeTagGroups(sorted, 0, {}, config) == LargeTagGroups(sorted, 0, {}, config);
  }

  lemma ClusteredSkip(sorted: seq<Entry>, i: nat, used: set<EntryId>, clusters: seq<Group>, config: Config)
    requires Clustered(sorted, i, used, clusters, config) && i < |sorted| && sorted[i].id in used
    ensures Clustered(sorted, i + 1, used, clusters, config)
  {
    SplitAt(sorted, used, i);
    assert Without(used, sorted[i..]) == Without(used, sorted[i + 1..]);
  }

  lemma ClusteringEnds(sorted: seq<Entry>, used: set<EntryId>, clusters: seq<Group>, config: Config)
    requires Clustered(sorted, |sorted|, used, clusters, config)
    ensures clusters == Filter(LargeEnough(config.minSize), GreedyGroups(sorted, config.maxSize, config.MinOverlap()))
  {
    assert sorted[|sorted|..] == [] && clusters + [] == clusters;
  }

  lemma ClusteredStep(sorted: seq<Entry>, i: nat, used: set<EntryId>, clusters: seq<Group>, group: Group,
                      config: Config)
    requires Clustered(sorted, i, used, clusters, config) && i < |sorted| && sorted[i].id !in used
    requires var rest := Without(used, sorted[i..]);
             rest != [] && group == FirstGroup(rest, config.maxSize, config.MinOverlap())
    ensures Sort(IdBefore, group) == group
    ensures Clustered(sorted, i + 1, used + IdSet(group),
                      if |group| >= config.minSize then clusters + [group] else clusters, config)
  {
    var found := if |group| >= config.minSize then [group] else [];
    assert clusters + found == if |group| >= config.minSize then clusters + [group] else clusters;
    LargeTagGroupsStep(sorted, i, used, group, config);
    Assoc(clusters, found, LargeTagGroups(sorted, i + 1, used + IdSet(group), config));
    IdSetContents(group);
  }

  lemma GreedyUnfold(sorted: seq<Entry>, maxSize: Size, minOverlap: nat)
    requires sorted != []
    ensures
      var g := FirstGroup(sorted, maxSize, minOverlap);
      GreedyGroups(sorted, maxSize, minOverlap) == [g]
        + GreedyGroups(Without(IdSet(g), sorted[1..]), maxSize, minOverlap)
  {
  }

  lemma LargeOneMore(group: Group, groups: seq<Group>, minSize: nat)
    ensures Filter(LargeEnough(minSize), [group] + groups) ==
              (if |group| >= minSize then [group] else []) + Filter(LargeEnough(minSize), groups)
  {
    FilterCons(LargeEnough(minSize), group, groups);
    assert [] + Filter(LargeEnough(minSize), groups) == Filter(LargeEnough(minSize), groups);
  }

  // After the group that the next unused record forms, the unused ones are those it leaves.
  lemma UnusedAfterGroup(sorted: seq<Entry>, i: nat, used: set<EntryId>, group: Group)
    requires i < |sorted| && sorted[i].id !in used
    ensures var rest := Without(used, sorted[i..]);
            && rest != [] && rest[0] == sorted[i]
            && Without(IdSet(group), rest[1..]) == Without(used + IdSet(group), sorted[i + 1..])
  {
    SplitAt(sorted, used, i);
    assert Without(used, sorted[i..])[1..] == Without(used, sorted[i + 1..]);
    WithoutTwice(IdSet(group), used, sorted[i + 1..]);
  }

  lemma FirstGroupIsSorted(sorted: seq<Entry>, i: nat, used: set<EntryId>, group: Group, maxSize: Size, minOverlap: nat)
    requires Sorted(IdBefore, sorted) && i <= |sorted| && Without(used, sorted[i..]) != []
    requires group == FirstGroup(Without(used, sorted[i..]), maxSize, minOverlap)
    ensures Sort(IdBefore, group) == group
  {
    FilterSorted(IdBefore, Outside(used), sorted[i..]);
    FirstGroupIsSound(Without(used, sorted[i..]), maxSize, minOverlap);
    GroupIsSorted(group);
  }

  lemma LargeTagGroupsStep(sorted: seq<Entry>, i: nat, used: set<EntryId>, group: Group, config: Config)
    requires Sorted(IdBefore, sorted) && i < |sorted| && sorted[i].id !in used
    requires var rest := Without(used, sorted[i..]);
             rest != [] && group == FirstGroup(rest, config.maxSize, config.MinOverlap())
    ensures LargeTagGroups(sorted, i, used, config)
         == (if |group| >= config.minSize then [group] else [])
            + LargeTagGroups(sorted, i + 1, used + IdSet(group), config)
    ensures Sort(IdBefore, group) == group && sorted[i] in group
  {
    var later := Without(used + IdSet(group), sorted[i + 1..]);
    UnusedAfterGroup(sorted, i, used, group);
    GreedyUnfold(Without(used, sorted[i..]), config.maxSize, config.MinOverlap());
    LargeOneMore(group, GreedyGroups(later, config.maxSize, config.MinOverlap()), config.minSize);
    FirstGroupIsSorted(sorted, i, used, group, config.maxSize, config.MinOverlap());
  }

  lemma SortCorrectById(records: seq<Entry>)
    ensures Sorted(IdBefore, Sort(IdBefore, records)) && multiset(Sort(IdBefore, records)) == multiset(records)
  {
    IdBeforeIsTotal();
    SortCorrect(IdBefore, records);
  }

  lemma SortedDistinct(records: seq<Entry>)
    requires DistinctIds(records)
    ensures DistinctIds(Sort(IdBefore, records)) && Sorted(IdBefore, Sort(IdBefore, records))
  {
    SortCorrectById(records);
    SameElementsDistinct(records, Sort(IdBefore, records));
  }

  // Sorting a group again changes nothing.
  lemma GroupIsSorted(g: Group)
    requires DistinctIds(g) && Sorted(IdBefore, g)
    ensures Sort(IdBefore, g) == g
  {
    IdBeforeIsTotal();
    DistinctIdsDoNotTie(g);
    SortOfSorted(IdBefore, g);
  }

  type ByProjectMap = map<Option<ProjectId>, seq<Entry>>

  // byProject, iterated in the given order, holds the records of each project seen so far.
  ghost predicate Grouped(byProject: ByProjectMap, order: seq<Option<ProjectId>>, records: seq<Entry>) {
    && order == Keys(records)
    && (forall k :: k in byProject <==> k in order)
    && (forall k :: k in order ==> byProject[k] == Filter(InProject(k), records))
  }

  lemma OneMoreRecord(k: Option<ProjectId>, records: seq<Entry>, r: Entry)
    ensures Filter(InProject(k), records + [r])
         == if r.project == k then Filter(InProject(k), records) + [r] else Filter(InProject(k), records)
  {
    FilterAppend(InProject(k), records, [r]);
    assert Filter(InProject(k), [r]) == if k == r.project then [r] else [];
    assert Filter(InProject(k), records) + [] == Filter(InProject(k), records);
  }

  lemma GroupedMore(byProject: ByProjectMap, order: seq<Option<ProjectId>>, records: seq<Entry>, r: Entry)
    requires Grouped(byProject, order, records) && r.project in byProject
    ensures Grouped(byProject[r.project := byProject[r.project] + [r]], order, records + [r])
  {
    assert (records + [r])[..|records|] == records;
    forall k | k in order ensures Filter(InProject(k), records + [r])
                  == if r.project == k then Filter(InProject(k), records) + [r] else Filter(InProject(k), records)
    {
      OneMoreRecord(k, records, r);
    }
  }

  lemma GroupedFirst(byProject: ByProjectMap, order: seq<Option<ProjectId>>, records: seq<Entry>, r: Entry)
    requires Grouped(byProject, order, records) && r.project !in byProject
    ensures Grouped(byProject[r.project := [r]], order + [r.project], records + [r])
  {
    assert (records + [r])[..|records|] == records;
    forall k | k in order ensures Filter(InProject(k), records + [r]) == Filter(InProject(k), records) {
      OneMoreRecord(k, records, r);
    }
    OneMoreRecord(r.project, records, r);
    FilterNone(InProject(r.project), records);
    assert [] + [r] == [r];
  }

  method GroupByProject(records: seq<Entry>) returns (byProject: ByProjectMap, order: seq<Option<ProjectId>>)
    ensures Grouped(byProject, order, records)
  {
    byProject, order := map[], [];  // order: the keys as they were inserted
    for n := 0 to |records|
      invariant Grouped(byProject, order, records[..n])
    {
      var r := records[n];
      assert records[..n] + [r] == records[..n + 1];
      if r.project !in byProject {
        GroupedFirst(byProject, order, records[..n], r);
        order := order + [r.project];
        byProject := byProject[r.project := [r]];
      } else {
        GroupedMore(byProject, order, records[..n], r);
        byProject := byProject[r.project := byProject[r.project] + [r]];
      }
    }
    assert records[..|records|] == records;
  }

  method ClusterByProject(records: seq<Entry>, config: Config) returns (clusters: seq<Group>)
    ensures clusters == Filter(LargeEnough(config.minSize), ProjectGroups(Keys(records), records, config.maxSize))
  {
    var byProject, order := GroupByProject(records);
    clusters := [];
    assert order[0..] == order;
    for p := 0 to |order|
      invariant clusters + LargeGroups(order[p..], records, config) == LargeGroups(order, records, config)
    {
      var chunks := ChunkList(Sort(IdBefore, byProject[order[p]]), config);
      LargeGroupsStep(order, p, records, config);
      Assoc(clusters, chunks, LargeGroups(order[p + 1..], records, config));
      clusters := clusters + chunks;
    }
    assert order[|order|..] == [];
  }

  ghost function LargeGroups(keys: seq<Option<ProjectId>>, records: seq<Entry>, config: Config): seq<Group> {
    Filter(LargeEnough(config.minSize), ProjectGroups(keys, records, config.maxSize))
  }

  lemma LargeGroupsStep(keys: seq<Option<ProjectId>>, p: nat, records: seq<Entry>, config: Config)
    requires p < |keys|
    ensures LargeGroups(keys[p..], records, config)
         == ProjectClusters(config, records, keys[p]) + LargeGroups(keys[p + 1..], records, config)
  {
    assert keys[p..][0] == keys[p] && keys[p..][1..] == keys[p + 1..];
    FilterAppend(LargeEnough(config.minSize),
                 Chunks(Sort(IdBefore, Filter(InProject(keys[p]), records)), config.maxSize),
                 ProjectGroups(keys[p + 1..], records, config.maxSize));
  }

  // The large chunks from index i on; none are left once i has passed the end.
  ghost function LargeChunksFrom(sorted: seq<Entry>, i: nat, config: Config): seq<Group> {
    if i < |sorted| then Filter(LargeEnough(config.minSize), Chunks(sorted[i..], config.maxSize)) else []
  }

  lemma LargeChunksStep(sorted: seq<Entry>, i: nat, config: Config)
    requires i < |sorted|
    ensures var chunk := sorted[i..if i + config.maxSize <= |sorted| then i + config.maxSize else |sorted|];
            LargeChunksFrom(sorted, i, config)
              == (if |chunk| >= config.minSize then [chunk] else [])
                + LargeChunksFrom(sorted, i + config.maxSize, config)
  {
    var large, end := LargeEnough(config.minSize), i + config.maxSize;
    if end < |sorted| {
      assert sorted[i..][..config.maxSize] == sorted[i..end] && sorted[i..][config.maxSize..] == sorted[end..];
      FilterCons(large, sorted[i..end], Chunks(sorted[end..], config.maxSize));
    } else {
      assert sorted[i..|sorted|] == sorted[i..];
      FilterCons(large, sorted[i..], []);
      assert Chunks(sorted[i..], config.maxSize) == [sorted[i..]] + [];
    }
  }

  // The chunking loop of one project.
  method ChunkList(sorted: seq<Entry>, config: Config) returns (clusters: seq<Group>)
    ensures clusters == Filter(LargeEnough(config.minSize), Chunks(sorted, config.maxSize))
  {
    clusters := [];
    assert sorted[0..] == sorted;
    var i := 0;
    while i < |sorted|
      invariant 0 <= i
      invariant clusters + LargeChunksFrom(sorted, i, config) == LargeChunksFrom(sorted, 0, config)
      decreases |sorted| - i
    {
      LargeChunksStep(sorted, i, config);
      var chunk := sorted[i..if i + config.maxSize <= |sorted| then i + config.maxSize else |sorted|];
      Assoc(clusters, if |chunk| >= config.minSize then [chunk] else [],
            LargeChunksFrom(sorted, i + config.maxSize, config));
      if |chunk| >= config.minSize {
        clusters := clusters + [chunk];
      }
      i := i + config.maxSize;
    }
  }

  method IdentifyClusters(records: seq<Entry>, config: Config) returns (clusters: seq<Group>)
    ensures clusters == Clusters(config, records)
  {
    var active := Filter(Eligible, records);
    if active == [] {
      return [];
    }
    match config.strategy
    case ByProject => clusters := ClusterByProject(active, config);
    case ByTag => clusters := ClusterByTag(active, config);
    case Semantic => clusters := ClusterByProject(active, config);
  }
}
