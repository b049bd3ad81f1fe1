/**
 * The long-term store: a document collection of entries, with the operations the distillation
 * engine uses. A storage fault is an input of the call it strikes, so every fault can be replayed.
 */
module LtmStore {
  import opened Sorting
  import opened Memory

  // The oldest touch first; ties by id.
  predicate ByTouch(a: Entry, b: Entry) {
    a.updatedAt < b.updatedAt || (a.updatedAt == b.updatedAt && a.id <= b.id)
  }

  // A field that is None restricts nothing; tags all have to be there.
  datatype QueryFilter = QueryFilter(
    kind: Option<Kind>, scope: Option<Scope>, project: Option<ProjectId>, tags: set<string>, status: Option<Status>,
    placement: Option<Placement>, superseded: bool, deleted: bool, from: Option<Time>, to: Option<Time>,
    limit: Option<int>, offset: Option<int>)
  {
    predicate Parses() {
      (limit.Some? ==> limit.value > 0) && (offset.Some? ==> offset.value >= 0)
    }

    // A status that is asked for overrides the two flags; without either only active entries are found.
    predicate Admits(s: Status) {
      if status.Some? then s == status.value
      else s == Active || (superseded && s == Superseded) || (deleted && (s == SoftDeleted || s == HardDeleted))
    }
  }

  // A filter leaves an entry out when one of its fields speaks against the entry. Without a status, retired entries are
  // left out but for the kinds of them that are asked for.
  lemma LeftOutExactly(e: Entry, f: QueryFilter)
    ensures !Matches(e, f) <==>
              || f.kind !in {None, Some(e.kind)} || f.scope !in {None, Some(e.scope)}
              || f.placement !in {None, Some(e.placement)} || (f.project != None && f.project != e.project)
              || (exists t :: t in f.tags && t !in e.tags)
              || (f.from.Some? && e.updatedAt < f.from.value) || (f.to.Some? && f.to.value < e.updatedAt)
              || f.status !in {None, Some(e.status)}
              || (f.status == None && !f.superseded && e.status == Superseded)
              || (f.status == None && !f.deleted && e.status in {SoftDeleted, HardDeleted})
  {
  }

  const UNFILTERED := QueryFilter(None, None, None, {}, None, None, false, false, None, None, None, None)

  predicate Matches(e: Entry, f: QueryFilter) {
    && (f.kind.Some? ==> e.kind == f.kind.value)
    && (f.scope.Some? ==> e.scope == f.scope.value)
    && (f.project.Some? ==> e.project == f.project)
    && f.tags <= e.tags
    && (f.placement.Some? ==> e.placement == f.placement.value)
    && (f.from.Some? ==> e.updatedAt >= f.from.value)
    && (f.to.Some? ==> e.updatedAt <= f.to.value)
    && f.Admits(e.status)
  }

  // all lists the matching entries, each once, in touch order; there is only one such list.
  ghost predicate IsMatching(m: Entries, f: QueryFilter, all: seq<Entry>) {
    && DistinctIds(all) && Sorted(ByTouch, all)
    && (forall r :: r in all <==> r.id in m && m[r.id] == r && Matches(r, f))
  }

  // The part of the matching entries that limit and offset cut out.
  function Page(all: seq<Entry>, f: QueryFilter): seq<Entry>
    requires f.Parses()
  {
    var offset := if f.offset.Some? then f.offset.value else 0;
    var from := if offset < |all| then offset else |all|;
    if f.limit.Some? && from + f.limit.value < |all| then all[from..from + f.limit.value] else all[from..]
  }

  // A page starts at the offset and holds as many of the matches from there on as the limit allows.
  lemma PageExactly(all: seq<Entry>, f: QueryFilter)
    requires f.Parses()
    ensures var offset := if f.offset.Some? then f.offset.value else 0;
            var page := Page(all, f);
            && (offset <= |all| ==> page <= all[offset..]) && (offset > |all| ==> page == [])
            && (f.limit.Some? ==> |page| <= f.limit.value)
            && (offset + |page| < |all| ==> f.limit.Some? && |page| == f.limit.value)
  {
    var offset := if f.offset.Some? then f.offset.value else 0;
    if offset < |all| && f.limit.Some? && offset + f.limit.value < |all| {
      assert Page(all, f) == all[offset..offset + f.limit.value] == all[offset..][..f.limit.value];
    } else if offset <= |all| {
      assert Page(all, f) == all[offset..];
    }
  }

  lemma MatchingIsUnique(m: Entries, f: QueryFilter, a: seq<Entry>, b: seq<Entry>)
    requires IsMatching(m, f, a) && IsMatching(m, f, b)
    ensures a == b
  {
    SameMembers(a, b);
    ByTouchIsTotal();
    SortedUnique(ByTouch, a, b);
  }

  // The pages of a given size from an offset on, until one is empty.
  function Pages(all: seq<Entry>, f: QueryFilter, offset: nat, size: nat): seq<Entry>
    requires size > 0
    decreases |all| - offset
  {
    var page := Page(all, f.(offset := Some(offset), limit := Some(size)));
    if page == [] || |all| <= offset then page else page + Pages(all, f, offset + size, size)
  }

  // Paging from the start lists every match once, in order, whatever the page size.
  lemma {:induction false} PagingListsAll(all: seq<Entry>, f: QueryFilter, offset: nat, size: nat)
    requires size > 0 && offset <= |all|
    ensures Pages(all, f, offset, size) == all[offset..]
    decreases |all| - offset
  {
    if offset + size <= |all| {
      PagingListsAll(all, f, offset + size, size);
      assert all[offset..] == all[offset..offset + size] + all[offset + size..];
    } else if offset < |all| {
      assert Pages(all, f, offset + size, size) == [];
    }
  }

  // What a distillation pass asks for: the active experience records, of one project if it is given.
  function PassFilter(project: Option<ProjectId>): QueryFilter {
    UNFILTERED.(kind := Some(ExperienceRecord), status := Some(Active), project := project)
  }

  predicate Selected(e: Entry, project: Option<ProjectId>) {
    e.kind == ExperienceRecord && e.status == Active && (project.Some? ==> e.project == project)
  }

  ghost predicate IsQueryResult(m: Entries, project: Option<ProjectId>, result: seq<Entry>) {
    && DistinctIds(result) && Sorted(ByTouch, result)
    && (forall r :: r in result <==> r.id in m && m[r.id] == r && Selected(r, project))
  }

  // What such a reading finds: every active experience record, of the given project if there is one.
  lemma SelectedExactly(m: Entries, project: Option<ProjectId>, result: seq<Entry>, id: EntryId)
    requires IsQueryResult(m, project, result) && id in m && m[id].id == id
    ensures m[id] in result <==>
              m[id].kind == ExperienceRecord && m[id].status == Active && (project == None || project == m[id].project)
  {
  }

  function MarkedEntry(e: Entry, successor: EntryId, at: Time): Entry {
    e.(status := Superseded, supersededBy := Some(successor), updatedAt := at)
  }

  // The entries after the given ids were marked as superseded; unknown ids are skipped.
  function Marked(m: Entries, ids: seq<EntryId>, successor: EntryId, at: Time): Entries {
    map id | id in m :: if id in ids then MarkedEntry(m[id], successor, at) else m[id]
  }

  lemma MarkOneMore(m: Entries, ids: seq<EntryId>, n: nat, successor: EntryId, at: Time)
    requires n < |ids|
    ensures
      var before, after := Marked(m, ids[..n], successor, at), Marked(m, ids[..n + 1], successor, at);
      after == if ids[n] in m then before[ids[n] := MarkedEntry(before[ids[n]], successor, at)] else before
  {
    assert ids[..n + 1] == ids[..n] + [ids[n]];
  }

  lemma ByTouchIsTotal()
    ensures TotalOrder(ByTouch)
  {
  }

  // A list in that order starts with the oldest touch.
  lemma OldestFirst(all: seq<Entry>, i: nat, j: nat)
    requires Sorted(ByTouch, all) && i < j < |all|
    ensures all[i].updatedAt < all[j].updatedAt || (all[i].updatedAt == all[j].updatedAt && all[i].id <= all[j].id)
  {
    assert ByTouch(all[i], all[j]);
  }

  class Store {
    var entries: Entries

    constructor ()
      ensures entries == map[]
    {
      entries := map[];
    }

    method Write(e: Entry, fault: bool) returns (ok: bool)
      modifies this
      ensures ok == (!fault && Storable(e))
      ensures entries == if ok then old(entries)[e.id := e] else old(entries)
    {
      ok := !fault && Storable(e);
      if ok {
        entries := entries[e.id := e];
      }
    }

    method Read(id: EntryId) returns (r: Option<Entry>)
      ensures r == if id in entries then Some(entries[id]) else None
    {
      r := if id in entries then Some(entries[id]) else None;
    }

    method Delete(id: EntryId, fault: bool) returns (ok: bool)
      modifies this
      ensures ok == (!fault && id in old(entries))
      ensures entries == if fault then old(entries) else old(entries) - {id}
    {
      ok := !fault && id in entries;
      if !fault {
        entries := entries - {id};
      }
    }

    // Stops with an error after failAfter sources, if that is given. Every stored entry is storable,
    // so rewriting one is never refused for its shape.
    method MarkSuperseded(ids: seq<EntryId>, successor: EntryId, at: Time, failAfter: Option<nat>) returns (ok: bool)
      requires Keyed(entries) && forall id :: id in entries ==> Storable(entries[id])
      modifies this
      ensures ok == failAfter.None?
      ensures var n := if failAfter.Some? && failAfter.value < |ids| then failAfter.value else |ids|;
              entries == Marked(old(entries), ids[..n], successor, at)
    {
      ghost var m := entries;
      var n := 0;
      while n < |ids| && failAfter != Some(n)
        invariant 0 <= n <= |ids| && (failAfter.Some? ==> n <= failAfter.value)
        invariant entries == Marked(m, ids[..n], successor, at)
      {
        MarkOneMore(m, ids, n, successor, at);
        var entry := Read(ids[n]);
        if entry.Some? {
          var _ := Write(MarkedEntry(entry.value, successor, at), false);
        }
        n := n + 1;
      }
      ok := failAfter.None?;
    }

    // Returns None for a filter that does not parse.
    method Query(f: QueryFilter) returns (result: Option<seq<Entry>>, ghost all: seq<Entry>)
      requires Keyed(entries)
      ensures f.Parses() ==> IsMatching(entries, f, all) && result == Some(Page(all, f))
      ensures !f.Parses() ==> result == None
    {
      if !f.Parses() {
        return None, [];
      }
      var found := MatchingEntries(entries, f);
      result, all := Some(Page(found, f)), found;
    }
  }

  // The scan yields the collection in no particular order; the result is sorted afterwards.
  method MatchingEntries(m: Entries, f: QueryFilter) returns (all: seq<Entry>)
    requires Keyed(m)
    ensures IsMatching(m, f, all)
  {
    ByTouchIsTotal();
    all := [];
    var rest := m.Keys;
    while rest != {}
      invariant rest <= m.Keys
      invariant DistinctIds(all) && Sorted(ByTouch, all)
      invariant forall r :: r in all <==> r.id in m.Keys - rest && m[r.id] == r && Matches(r, f)
      decreases rest
    {
      var id :| id in rest;
      if Matches(m[id], f) {
        InsertKeepsIds(m[id], all);
        InsertSorts(ByTouch, m[id], all);
        all := Insert(ByTouch, m[id], all);
      }
      rest := rest - {id};
    }
  }

  lemma {:induction false} InsertKeepsIds(e: Entry, xs: seq<Entry>)
    requires DistinctIds(xs) && forall r :: r in xs ==> r.id != e.id
    ensures DistinctIds(Insert(ByTouch, e, xs))
    ensures forall r :: r in Insert(ByTouch, e, xs) <==> r == e || r in xs
  {
    if xs != [] && !ByTouch(e, xs[0]) {
      InsertKeepsIds(e, xs[1..]);
      var ys := Insert(ByTouch, e, xs[1..]);
      assert xs == [xs[0]] + xs[1..];
      forall i | 0 <= i < |ys| ensures ys[i].id != xs[0].id {
        assert ys[i] in ys;
      }
    }
  }
}
