/**
 * One long-term store under two writers: the governed runtime and the distillation engine, which promotes and reverses
 * on the same entries and appends to the same log. What every mixture of their calls keeps, when a retired entry comes
 * back, and what retrieval finds of it.
 */
module SharedStore {
  import opened Memory
  import opened LtmStore
  import opened Distillation
  import opened Retrieval
  import L = GovernedLtm
  import W = MwcPipeline

  datatype Event =
    | Govern(call: L.Call)
    | Submit(candidate: L.Call)
    | Promotion(pattern: Entry, tick: Tick, faults: Faults, log: Option<Time>)
    | Reversal(id: EntryId, clock: nat -> Time, failAfter: Option<nat>)

  // Ids are issued once; a successor is there and was issued later; and a superseded entry without one is a pattern,
  // retired by a reversal.
  ghost predicate Linked(s: L.State) {
    && L.IdsIssued(s)
    && forall id :: id in s.entries ==> LinkedEntry(s.entries[id], id, s.entries)
  }

  predicate LinkedEntry(e: Entry, id: EntryId, m: Entries) {
    && (e.supersededBy.Some? ==> e.supersededBy.value in m && id < e.supersededBy.value)
    && (e.status == Superseded && e.supersededBy.None? ==> e.kind == DistilledPattern)
  }

  // A pattern is new and made from entries there may be; what has become of them since the pass read them is open.
  predicate Enabled(s: L.State, e: Event) {
    && (e.Submit? ==> e.candidate.Write?)
    && (e.Promotion? ==>
      && e.pattern.id >= s.nextId && e.pattern.kind == DistilledPattern && e.pattern.supersededBy.None?
      && forall id :: id in e.pattern.sources ==> id < s.nextId)
  }

  // The entries, and the ids for the pattern and its audit record.
  function PromotedState(s: L.State, pattern: Entry, tick: Tick, faults: Faults): L.State {
    s.(entries := Persisted(s.entries, pattern, tick, faults).0,
       nextId := if pattern.id >= s.nextId then pattern.id + 2 else s.nextId)
  }

  function RecordOfPromotion(pattern: Entry, at: Time): L.AuditRecord {
    L.AuditRecord(0, L.Supersede, L.Applied, pattern.project, None, Some(pattern.id), None, at)
  }

  // The promotion went through and the engine has an audit sink.
  predicate LogsPromotion(s: L.State, e: Event)
    requires e.Promotion?
  {
    e.log.Some? && Persisted(s.entries, e.pattern, e.tick, e.faults).1 == Promoted
  }

  ghost function EventStep(s: L.State, e: Event, indexing: bool): L.State {
    match e
    case Govern(call) => L.Step(s, call, indexing).0
    case Submit(call) => if call.Write? then W.SubmitStep(s, call, indexing).0 else s
    case Promotion(pattern, tick, faults, log) =>
      var s1 := PromotedState(s, pattern, tick, faults);
      if LogsPromotion(s, e) then L.Append(s1, Issued(pattern.id + 1), RecordOfPromotion(pattern, log.value)) else s1
    case Reversal(id, clock, failAfter) =>
      var r := ReverseUntil(s.entries, id, clock, failAfter);
      if r.Reversed? || r.Interrupted? then s.(entries := r.entries) else s
  }

  ghost function After(s: L.State, events: seq<Event>, indexing: bool): L.State
    decreases |events|
  {
    if events == [] then s else After(EventStep(s, events[0], indexing), events[1..], indexing)
  }

  ghost predicate Enabling(s: L.State, events: seq<Event>, indexing: bool)
    decreases |events|
  {
    events == [] || (Enabled(s, events[0]) && Enabling(EventStep(s, events[0], indexing), events[1..], indexing))
  }

  /******* What brings a retired entry back *******/

  // The failed promotion had marked the entry, and its compensation reached it again.
  predicate Compensated(pattern: Entry, faults: Faults, id: EntryId) {
    var n := |pattern.sources|;
    && !faults.patternWrite && Storable(pattern) && !faults.written && (faults.marks.Some? || faults.audit)
    && !faults.compensation
    && id in pattern.sources[..Stopped(faults.marks, n)] && id in pattern.sources[..Stopped(faults.restores, n)]
  }

  // The sources a reversal reaches, less the pattern itself if that is retired at the end.
  ghost predicate Reaches(m: Entries, pattern: EntryId, failAfter: Option<nat>, id: EntryId) {
    && pattern in m && m[pattern].kind == DistilledPattern && m[pattern].sources != []
    && var ids := Unique(m[pattern].sources);
       if failAfter.Some? && failAfter.value <= |ids| then id in ids[..failAfter.value]
       else id in ids && id != pattern
  }

  ghost predicate Revives(s: L.State, e: Event, id: EntryId) {
    match e
    case Govern(_) => false
    case Submit(_) => false
    case Promotion(pattern, _, faults, _) => Compensated(pattern, faults, id)
    case Reversal(pattern, _, failAfter) => Reaches(s.entries, pattern, failAfter, id)
  }

  /******* What every event keeps *******/

  // Kind and content of an entry stay, or the content is redacted with the hash of what it was on a tombstone.
  ghost predicate Kept(e: Entry, e': Entry, s': L.State) {
    && e'.id == e.id && e'.kind == e.kind && e'.createdAt == e.createdAt && e'.mutability == e.mutability
    && (e'.content == e.content || (e'.content == L.REDACTED && L.Buried(s', e.id, e.content)))
    && (L.Protected(e) ==> e'.content == e.content)
  }

  // From one state to a later one: nothing goes away, and every entry is kept.
  ghost predicate Keeps(s: L.State, s': L.State) {
    && L.KeepsIndex(s, s')
    && (forall t :: t in s.tombstones ==> t in s'.tombstones && s'.tombstones[t] == s.tombstones[t])
    && (forall id :: id in s.entries ==> id in s'.entries && Kept(s.entries[id], s'.entries[id], s'))
  }

  lemma KeepsTransitive(a: L.State, b: L.State, c: L.State)
    requires L.IdsIssued(a) && Keeps(a, b) && Keeps(b, c)
    ensures Keeps(a, c)
  {
    forall id | id in a.entries ensures id in c.entries && Kept(a.entries[id], c.entries[id], c) {
      var x, y, z := a.entries[id], b.entries[id], c.entries[id];
      assert Kept(x, y, b) && Kept(y, z, c);
      if y.content != x.content {
        var t :| t in b.tombstones && b.tombstones[t].target == x.id
          && b.tombstones[t].contentHash == Sha256(x.content);
        assert t in c.tombstones && c.tombstones[t] == b.tombstones[t];
      }
    }
  }

  // What a call keeps besides: of the retired entries none becomes active.
  ghost predicate KeepsRetired(s: L.State, s': L.State) {
    && Linked(s') && Keeps(s, s')
    && forall id :: id in s.entries && s.entries[id].status != Active ==> s'.entries[id].status != Active
  }

  lemma KeepsRetiredTransitive(a: L.State, b: L.State, c: L.State)
    requires L.IdsIssued(a) && KeepsRetired(a, b) && KeepsRetired(b, c)
    ensures KeepsRetired(a, c)
  {
    KeepsTransitive(a, b, c);
  }

  // Drawing ids and appending to the log.
  lemma SameEntriesKeepRetired(s: L.State, s': L.State)
    requires Linked(s) && L.SameData(s, s') && s.nextId <= s'.nextId
    ensures KeepsRetired(s, s')
  {
    assert forall id :: id in s'.entries ==> LinkedEntry(s.entries[id], id, s.entries);
  }

  lemma AddedKeepsRetired(s: L.State, s': L.State, e: Entry)
    requires Linked(s) && s.nextId == e.id < s'.nextId && s'.entries == s.entries[e.id := e]
    requires s'.tombstones == s.tombstones && e.supersededBy.None? && e.status == Active
    requires forall id :: id in s'.index <==> id in s.index || (id == e.id && id in s'.index)
    ensures KeepsRetired(s, s')
  {
    L.IdIsUnused(s);
    forall id | id in s'.entries
      ensures s'.entries[id].id == id < s'.nextId && LinkedEntry(s'.entries[id], id, s'.entries)
    {
      assert id in s.entries ==> LinkedEntry(s.entries[id], id, s.entries);
    }
  }

  // An embedding that failed, or a store that refused the entry.
  lemma RefusedKeepsRetired(s: L.State, s': L.State)
    requires Linked(s) && s.nextId <= s'.nextId && s'.entries == s.entries && s'.tombstones == s.tombstones
    requires forall id :: id in s.index ==> id in s'.index
    requires forall id :: id in s'.index ==> id < s'.nextId
    ensures KeepsRetired(s, s')
  {
    assert forall id :: id in s.entries ==> LinkedEntry(s.entries[id], id, s.entries);
  }

  lemma PersistKeepsRetired(s: L.State, c: L.Candidate, project: Option<ProjectId>, mutation: MutationId, at: Time,
                            indexing: bool, faults: L.Faults)
    requires Linked(s)
    ensures var p := L.Persist(s, c, project, mutation, at, indexing, faults);
            KeepsRetired(s, p.state) && (p.Stored? ==> p.id == s.nextId && p.id in p.state.entries)
  {
    var p := L.Persist(s, c, project, mutation, at, indexing, faults);
    L.IdIsUnused(s);
    if p.Stored? {
      AddedKeepsRetired(s, p.state, L.CandidateToEntry(c, L.ResolveProject(c, project), at, mutation, s.nextId));
    } else {
      RefusedKeepsRetired(s, p.state);
    }
  }

  // Rewriting one entry that does not become active.
  lemma RewriteKeepsRetired(s: L.State, s': L.State, e: Entry)
    requires Linked(s) && e.id in s.entries && s.nextId <= s'.nextId && s'.entries == s.entries[e.id := e]
    requires s'.index == s.index && forall t :: t in s'.tombstones ==> t < s'.nextId
    requires forall t :: t in s.tombstones ==> t in s'.tombstones && s'.tombstones[t] == s.tombstones[t]
    requires Kept(s.entries[e.id], e, s') && LinkedEntry(e, e.id, s.entries)
    requires s.entries[e.id].status != Active ==> e.status != Active
    ensures KeepsRetired(s, s')
  {
    assert s'.entries.Keys == s.entries.Keys;
    forall id | id in s'.entries
      ensures s'.entries[id].id == id < s'.nextId && LinkedEntry(s'.entries[id], id, s'.entries)
    {
      assert LinkedEntry(s.entries[id], id, s.entries);
    }
  }

  lemma SupersedeKeepsRetired(s: L.State, r: L.Request, mutation: MutationId, now: Time, indexing: bool,
                              faults: L.Faults)
    requires Linked(s) && r.action == L.Supersede
    ensures KeepsRetired(s, L.Apply(s, r, mutation, now, indexing, faults).state)
  {
    var s' := L.Apply(s, r, mutation, now, indexing, faults).state;
    if !(r.target.Some? && r.replacement.Some? && r.target.value in s.entries) {
      SameEntriesKeepRetired(s, s);
    } else {
      var previous, c := s.entries[r.target.value], r.replacement.value;
      if previous.mutability != DomainVersioned || previous.status != Active {
        SameEntriesKeepRetired(s, s);
      } else {
        var c', project := L.Succeeding(c, previous), L.ProjectFor(r, previous);
        var p := L.Persist(s, c', project, mutation, now, indexing, faults);
        PersistKeepsRetired(s, c', project, mutation, now, indexing, faults);
        L.PersistOnlyAdds(s, c', project, mutation, now, indexing, faults);
        if p.Stored? && !faults.secondPut {
          var closed := previous.(status := Superseded, supersededBy := Some(p.id), updatedAt := now,
                                  lastMutation := Some(mutation));
          assert s' == p.state.(entries := p.state.entries[previous.id := closed]);
          assert p.state.entries[previous.id] == previous;
          RewriteKeepsRetired(p.state, s', closed);
          KeepsRetiredTransitive(s, p.state, s');
        } else {
          assert s' == p.state;
        }
      }
    }
  }

  lemma SoftDeleteKeepsRetired(s: L.State, r: L.Request, mutation: MutationId, now: Time, indexing: bool,
                               faults: L.Faults)
    requires Linked(s) && r.action == L.SoftDelete
    ensures KeepsRetired(s, L.Apply(s, r, mutation, now, indexing, faults).state)
  {
    var a := L.Apply(s, r, mutation, now, indexing, faults);
    if a.Done? {
      var e := s.entries[r.target.value];
      assert LinkedEntry(e, e.id, s.entries);
      RewriteKeepsRetired(s, a.state, L.DeleteEntry(e, false, None, mutation, now));
    } else {
      SameEntriesKeepRetired(s, s);
    }
  }

  // The tombstone is put first, and holds the hash of what the entry held.
  function WithTombstone(s: L.State, e: Entry, mutation: MutationId, now: Time): L.State {
    s.(nextId := s.nextId + 1,
       tombstones := s.tombstones[s.nextId := L.Tombstone(e.id, Sha256(e.content), mutation, e.project, now)])
  }

  lemma TombstoneIsNew(s: L.State, e: Entry, mutation: MutationId, now: Time)
    requires Linked(s)
    ensures
      var s' := WithTombstone(s, e, mutation, now);
      && L.Buried(s', e.id, e.content)
      && (forall t :: t in s'.tombstones ==> t < s'.nextId)
      && (forall t :: t in s.tombstones ==> t in s'.tombstones && s'.tombstones[t] == s.tombstones[t])
  {
    L.IdIsUnused(s);
    var s' := WithTombstone(s, e, mutation, now);
    assert s.nextId in s'.tombstones && s'.tombstones[s.nextId].contentHash == Sha256(e.content);
  }

  lemma TombstoneKeepsRetired(s: L.State, e: Entry, mutation: MutationId, now: Time)
    requires Linked(s)
    ensures KeepsRetired(s, WithTombstone(s, e, mutation, now))
  {
    TombstoneIsNew(s, e, mutation, now);
    assert forall id :: id in s.entries ==> LinkedEntry(s.entries[id], id, s.entries);
  }

  lemma BuryKeepsRetired(s: L.State, e: Entry, mutation: MutationId, now: Time)
    requires Linked(s) && e.id in s.entries && s.entries[e.id] == e && !L.Protected(e)
    ensures
      var e' := L.DeleteEntry(e, true, Some(s.nextId), mutation, now);
      KeepsRetired(s, WithTombstone(s, e, mutation, now).(entries := s.entries[e.id := e']))
  {
    var e' := L.DeleteEntry(e, true, Some(s.nextId), mutation, now);
    var buried := WithTombstone(s, e, mutation, now);
    var s' := buried.(entries := s.entries[e.id := e']);
    TombstoneIsNew(s, e, mutation, now);
    assert LinkedEntry(e, e.id, s.entries) && s'.tombstones == buried.tombstones;
    assert L.Buried(s', e.id, e.content);
    RewriteKeepsRetired(s, s', e');
  }

  lemma HardDeleteKeepsRetired(s: L.State, r: L.Request, mutation: MutationId, now: Time, indexing: bool,
                               faults: L.Faults)
    requires Linked(s) && r.action == L.HardDelete
    ensures KeepsRetired(s, L.Apply(s, r, mutation, now, indexing, faults).state)
  {
    var s' := L.Apply(s, r, mutation, now, indexing, faults).state;
    if r.target.Some? && r.target.value in s.entries && !L.Protected(s.entries[r.target.value]) {
      var e := s.entries[r.target.value];
      if faults.firstPut {
        assert s' == s.(nextId := s.nextId + 1);
        SameEntriesKeepRetired(s, s');
      } else if faults.secondPut {
        assert s' == WithTombstone(s, e, mutation, now);
        TombstoneKeepsRetired(s, e, mutation, now);
      } else {
        BuryKeepsRetired(s, e, mutation, now);
      }
    } else {
      assert s' == s;
      SameEntriesKeepRetired(s, s);
    }
  }

  lemma MoveKeepsRetired(s: L.State, r: L.Request, mutation: MutationId, now: Time, indexing: bool, faults: L.Faults)
    requires Linked(s) && (r.action == L.PromoteGlobal || r.action == L.DemoteProject)
    ensures KeepsRetired(s, L.Apply(s, r, mutation, now, indexing, faults).state)
  {
    var a := L.Apply(s, r, mutation, now, indexing, faults);
    if a.Done? {
      var e := s.entries[r.target.value];
      assert LinkedEntry(e, e.id, s.entries);
      RewriteKeepsRetired(s, a.state, L.MoveEntry(e, r.action == L.PromoteGlobal, r.project, mutation, now));
    } else {
      SameEntriesKeepRetired(s, s);
    }
  }

  lemma ApplyKeepsRetired(s: L.State, r: L.Request, mutation: MutationId, now: Time, indexing: bool, faults: L.Faults)
    requires Linked(s)
    ensures KeepsRetired(s, L.Apply(s, r, mutation, now, indexing, faults).state)
  {
    match r.action
    case Create =>
      if r.replacement.Some? {
        PersistKeepsRetired(s, r.replacement.value, r.project, mutation, now, indexing, faults);
      } else {
        SameEntriesKeepRetired(s, s);
      }
    case Supersede => SupersedeKeepsRetired(s, r, mutation, now, indexing, faults);
    case SoftDelete => SoftDeleteKeepsRetired(s, r, mutation, now, indexing, faults);
    case HardDelete => HardDeleteKeepsRetired(s, r, mutation, now, indexing, faults);
    case PromoteGlobal => MoveKeepsRetired(s, r, mutation, now, indexing, faults);
    case DemoteProject => MoveKeepsRetired(s, r, mutation, now, indexing, faults);
    case CompactStm => SameEntriesKeepRetired(s, s);
  }

  lemma CommitKeepsRetired(s: L.State, c: L.Candidate, project: Option<ProjectId>, mutation: MutationId, at: Time,
                           indexing: bool, faults: L.Faults)
    requires Linked(s)
    ensures KeepsRetired(s, L.Commit(s, c, project, mutation, at, indexing, faults).0)
  {
    var p := L.Persist(s, c, project, mutation, at, indexing, faults);
    var s' := L.Commit(s, c, project, mutation, at, indexing, faults).0;
    PersistKeepsRetired(s, c, project, mutation, at, indexing, faults);
    SameEntriesKeepRetired(p.state, s');
    KeepsRetiredTransitive(s, p.state, s');
  }

  lemma AdmissionKeepsRetired(s: L.State, call: L.Call, admitted: bool, indexing: bool)
    requires Linked(s) && call.Write?
    ensures KeepsRetired(s, L.Admission(s, call, admitted, indexing).0)
  {
    var s1, mutation := s.(nextId := s.nextId + 1), Issued(s.nextId);
    var s' := L.Admission(s, call, admitted, indexing).0;
    SameEntriesKeepRetired(s, s1);
    if admitted {
      assert s' == L.Commit(s1, call.candidate, call.project, mutation, call.at, indexing, call.faults).0;
      CommitKeepsRetired(s1, call.candidate, call.project, mutation, call.at, indexing, call.faults);
      KeepsRetiredTransitive(s, s1, s');
    } else {
      SameEntriesKeepRetired(s, s');
    }
  }

  lemma SubmissionKeepsRetired(s: L.State, call: L.Call, indexing: bool)
    requires Linked(s) && call.Write?
    ensures KeepsRetired(s, W.SubmitStep(s, call, indexing).0)
  {
    if L.Supported(call.candidate) {
      W.SubmitIsAdmission(s, call, indexing);
      AdmissionKeepsRetired(s, call, W.Admitted(call), indexing);
    } else {
      SameEntriesKeepRetired(s, s);
    }
  }

  lemma ConcludeTouchesLogOnly(a: L.Application, mutation: MutationId, record: L.AuditRecord, faults: L.Faults)
    ensures var s' := L.Conclude(a, mutation, record, faults).0; L.SameData(a.state, s') && s'.nextId == a.state.nextId
  {
  }

  lemma MutationKeepsRetired(s: L.State, call: L.Call, indexing: bool)
    requires Linked(s) && call.Mutate?
    ensures KeepsRetired(s, L.MutateStep(s, call, indexing).0)
  {
    var r := L.WithProject(s, call.request);
    var s', s1, now := L.MutateStep(s, call, indexing).0, L.Drawn(s, r), L.MomentOf(r, call.at);
    var record := L.AuditRecord(0, r.action, L.Denied, r.project, r.target, None, None, now);
    SameEntriesKeepRetired(s, s1);
    if call.approved {
      var a := L.Applying(s, call, indexing);
      ApplyKeepsRetired(s1, r, L.IdOf(s, r), now, indexing, call.faults);
      ConcludeTouchesLogOnly(a, L.IdOf(s, r), record, call.faults);
      SameEntriesKeepRetired(a.state, s');
      KeepsRetiredTransitive(s1, a.state, s');
      KeepsRetiredTransitive(s, s1, s');
    } else {
      SameEntriesKeepRetired(s, s');
    }
  }

  lemma CallKeepsRetired(s: L.State, call: L.Call, indexing: bool)
    requires Linked(s)
    ensures KeepsRetired(s, L.Step(s, call, indexing).0)
  {
    if call.Mutate? {
      MutationKeepsRetired(s, call, indexing);
    } else if L.Typed(call.candidate) {
      AdmissionKeepsRetired(s, call, L.Admitted(call), indexing);
    } else {
      SameEntriesKeepRetired(s, s);
    }
  }

  /******* Promotions and reversals *******/

  // Nothing but status, successor and touch time of an entry differs.
  predicate Relinked(e: Entry, e': Entry) {
    e' == e.(status := e'.status, supersededBy := e'.supersededBy, updatedAt := e'.updatedAt)
  }

  // One entry after marking and compensation.
  lemma RestoredMarked(m: Entries, pattern: Entry, marks: seq<EntryId>, restores: seq<EntryId>, at: Time,
                       clock: nat -> Time, id: EntryId)
    requires id in m && id != pattern.id && m[id].supersededBy != Some(pattern.id)
    ensures
      var marked := Marked(m[pattern.id := pattern], marks, pattern.id, at);
      var m' := Restored(marked, restores, pattern.id, clock);
      && id in marked && marked[id] == (if id in marks then MarkedEntry(m[id], pattern.id, at) else m[id])
      && id in m' && Relinked(m[id], m'[id])
      && (id !in marks ==> m'[id] == m[id])
      && (id in marks && id in restores ==> m'[id].status == Active && m'[id].supersededBy.None?)
      && (id in marks && id !in restores ==> m'[id].status == Superseded && m'[id].supersededBy == Some(pattern.id))
  {
    var marked := Marked(m[pattern.id := pattern], marks, pattern.id, at);
    assert marked[id] == if id in marks then MarkedEntry(m[id], pattern.id, at) else m[id];
    RestoredContents(marked, restores, pattern.id, clock);
    var m' := Restored(marked, restores, pattern.id, clock);
    assert id in restores ==> RestoredTo(marked[id], m'[id], pattern.id);
  }

  predicate FreshFor(m: Entries, pattern: Entry, id: EntryId) {
    id in m && id != pattern.id && m[id].supersededBy != Some(pattern.id)
  }

  // One entry after a promotion: as it was; or marked, and then the pattern is there; or active again.
  lemma PromotedAt(m: Entries, pattern: Entry, tick: Tick, faults: Faults, id: EntryId)
    requires FreshFor(m, pattern, id)
    ensures
      var m' := Persisted(m, pattern, tick, faults).0;
      && id in m' && Relinked(m[id], m'[id])
      && (|| m'[id] == m[id]
          || (m'[id].status == Superseded && m'[id].supersededBy == Some(pattern.id) && pattern.id in m')
          || (m'[id].status == Active && m'[id].supersededBy.None?))
      && (m[id].status != Active ==> (m'[id].status == Active <==> Compensated(pattern, faults, id)))
  {
    var sources, n := pattern.sources, |pattern.sources|;
    var marks, restores := sources[..Stopped(faults.marks, n)], sources[..Stopped(faults.restores, n)];
    var marked := Marked(m[pattern.id := pattern], marks, pattern.id, tick.markedAt);
    var (m', outcome) := Persisted(m, pattern, tick, faults);
    RestoredMarked(m, pattern, marks, restores, tick.markedAt, tick.restoredAt, id);
    RestoredContents(marked, restores, pattern.id, tick.restoredAt);
    assert sources[..n] == sources;
    if outcome == RolledBack {
      assert restores == sources && forall x :: x in marks ==> x in sources;
    } else if outcome != PatternNotWritten {
      assert pattern.id in m';
    }
  }

  // No entry appears but the pattern, and that as it was written.
  lemma PromotedKeys(m: Entries, pattern: Entry, tick: Tick, faults: Faults)
    requires pattern.id !in m && pattern.id !in pattern.sources
    ensures
      var m' := Persisted(m, pattern, tick, faults).0;
      && (forall id :: id in m' ==> id in m || id == pattern.id)
      && (pattern.id in m' ==> m'[pattern.id] == pattern)
  {
    var sources, n := pattern.sources, |pattern.sources|;
    var marks, restores := sources[..Stopped(faults.marks, n)], sources[..Stopped(faults.restores, n)];
    var marked := Marked(m[pattern.id := pattern], marks, pattern.id, tick.markedAt);
    assert forall id :: id in marks || id in restores ==> id in sources;
    assert marked[pattern.id] == pattern;
    RestoredContents(marked, restores, pattern.id, tick.restoredAt);
  }

  // Writing the entries of a promotion: every entry is kept, whatever failed and whatever was rolled back.
  lemma PromotedStateKeeps(s: L.State, pattern: Entry, tick: Tick, faults: Faults)
    requires Linked(s) && Enabled(s, Promotion(pattern, tick, faults, None))
    ensures var s' := PromotedState(s, pattern, tick, faults); Linked(s') && Keeps(s, s')
  {
    var m, s' := s.entries, PromotedState(s, pattern, tick, faults);
    var m' := s'.entries;
    assert pattern.id !in m && forall id :: id in m ==> LinkedEntry(m[id], id, m);
    PromotedKeys(m, pattern, tick, faults);
    forall id | id in m
      ensures id in m' && Relinked(m[id], m'[id]) && LinkedEntry(m'[id], id, m' + m)
      ensures m'[id].supersededBy == Some(pattern.id) ==> pattern.id in m'
    {
      PromotedAt(m, pattern, tick, faults, id);
    }
    forall id | id in m' ensures m'[id].id == id < s'.nextId && LinkedEntry(m'[id], id, m') {
      assert id in m ==> LinkedEntry(m'[id], id, m' + m);
    }
  }

  // Whether a reversal finds a pattern with sources, and what it makes of the entries.
  lemma ReversalEntries(m: Entries, pattern: EntryId, clock: nat -> Time, failAfter: Option<nat>)
    ensures
      var found := pattern in m && m[pattern].kind == DistilledPattern && m[pattern].sources != [];
      && (Reverse(m, pattern, clock).Reversed? <==> found)
      && (found ==>
            var ids, r := Unique(m[pattern].sources), ReverseUntil(m, pattern, clock, failAfter);
            var retired := m[pattern].(status := Superseded, updatedAt := clock(|ids|));
            && (r.Reversed? || r.Interrupted?)
            && r.entries ==
                 if failAfter.Some? && failAfter.value <= |ids| then Reactivated(m, ids[..failAfter.value], clock)
                 else Reactivated(m, ids, clock)[pattern := retired])
  {
    if pattern in m && m[pattern].kind == DistilledPattern {
      var sources := m[pattern].sources;
      if sources != [] {
        assert sources[0] in Unique(sources);
      } else {
        assert Unique(sources) == [];
      }
    }
  }

  // One entry after a reversal: as it was, or active without successor, or the pattern, retired.
  lemma ReversedAt(s: L.State, pattern: EntryId, clock: nat -> Time, failAfter: Option<nat>, id: EntryId)
    ensures
      var m, m' := s.entries, EventStep(s, Reversal(pattern, clock, failAfter), false).entries;
      && (id in m' <==> id in m)
      && (id in m ==>
            && Relinked(m[id], m'[id])
            && (|| m'[id] == m[id]
                || (m'[id].status == Active && m'[id].supersededBy.None?)
                || (m'[id].kind == DistilledPattern && m'[id].supersededBy == m[id].supersededBy)))
      && (id in m && m[id].status != Active ==> (m'[id].status == Active <==> Reaches(m, pattern, failAfter, id)))
  {
    var m, m' := s.entries, EventStep(s, Reversal(pattern, clock, failAfter), false).entries;
    ReversalEntries(m, pattern, clock, failAfter);
    if Reverse(m, pattern, clock).Reversed? {
      var ids := Unique(m[pattern].sources);
      if failAfter.Some? && failAfter.value <= |ids| {
        assert m' == Reactivated(m, ids[..failAfter.value], clock);
        ReactivatedAt(m, ids[..failAfter.value], clock, id);
      } else {
        var retired := m[pattern].(status := Superseded, updatedAt := clock(|ids|));
        assert m' == Reactivated(m, ids, clock)[pattern := retired];
        ReactivatedAt(m, ids, clock, id);
      }
    } else {
      assert m' == m;
    }
  }

  lemma ReversalKeeps(s: L.State, pattern: EntryId, clock: nat -> Time, failAfter: Option<nat>)
    requires Linked(s)
    ensures var s' := EventStep(s, Reversal(pattern, clock, failAfter), false); Linked(s') && Keeps(s, s')
  {
    var s' := EventStep(s, Reversal(pattern, clock, failAfter), false);
    assert s' == s.(entries := s'.entries);
    forall id ensures id in s'.entries <==> id in s.entries
              ensures id in s.entries ==> Relinked(s.entries[id], s'.entries[id])
              ensures id in s.entries ==> LinkedEntry(s'.entries[id], id, s.entries)
    {
      ReversedAt(s, pattern, clock, failAfter, id);
      assert id in s.entries ==> LinkedEntry(s.entries[id], id, s.entries);
    }
    assert s'.entries.Keys == s.entries.Keys;
    forall id | id in s'.entries ensures LinkedEntry(s'.entries[id], id, s'.entries) {
      assert LinkedEntry(s'.entries[id], id, s.entries);
    }
  }

  lemma PromotionKeeps(s: L.State, e: Event, indexing: bool)
    requires Linked(s) && e.Promotion? && Enabled(s, e)
    ensures var s' := EventStep(s, e, indexing); Linked(s') && Keeps(s, s')
  {
    var s1, s' := PromotedState(s, e.pattern, e.tick, e.faults), EventStep(s, e, indexing);
    PromotedStateKeeps(s, e.pattern, e.tick, e.faults);
    SameEntriesKeepRetired(s1, s');
    KeepsTransitive(s, s1, s');
  }

  // Every event, whatever fails during it, keeps the links, and keeps every entry.
  lemma EventKeeps(s: L.State, e: Event, indexing: bool)
    requires Linked(s) && Enabled(s, e)
    ensures var s' := EventStep(s, e, indexing); Linked(s') && Keeps(s, s')
  {
    match e
    case Govern(call) => CallKeepsRetired(s, call, indexing);
    case Submit(call) => SubmissionKeepsRetired(s, call, indexing);
    case Promotion(_, _, _, _) => PromotionKeeps(s, e, indexing);
    case Reversal(pattern, clock, failAfter) => ReversalKeeps(s, pattern, clock, failAfter);
  }

  // One event: a retired entry is active afterwards exactly when a reversal or a compensation reached it.
  lemma EventRevivesExactly(s: L.State, e: Event, indexing: bool, id: EntryId)
    requires Linked(s) && Enabled(s, e) && id in s.entries && s.entries[id].status != Active
    ensures var s' := EventStep(s, e, indexing);
            id in s'.entries && (s'.entries[id].status == Active <==> Revives(s, e, id))
  {
    match e
    case Govern(call) => CallKeepsRetired(s, call, indexing);
    case Submit(call) => SubmissionKeepsRetired(s, call, indexing);
    case Promotion(pattern, tick, faults, _) =>
      assert LinkedEntry(s.entries[id], id, s.entries);
      PromotedAt(s.entries, pattern, tick, faults, id);
    case Reversal(pattern, clock, failAfter) => ReversedAt(s, pattern, clock, failAfter, id);
  }

  /******* Whole runs *******/

  // Over every run of calls, submissions, promotions and reversals, under every fault: a successor is there and was
  // issued later, nothing goes away, and the content of every entry is what it was at any earlier point of the run, or
  // is redacted with the hash of what it was on a tombstone.
  lemma {:induction false} RunKeeps(s: L.State, events: seq<Event>, indexing: bool)
    requires Linked(s) && Enabling(s, events, indexing)
    ensures var s' := After(s, events, indexing); Linked(s') && Keeps(s, s')
    decreases |events|
  {
    if events == [] {
      SameEntriesKeepRetired(s, s);
    } else {
      var s1 := EventStep(s, events[0], indexing);
      EventKeeps(s, events[0], indexing);
      RunKeeps(s1, events[1..], indexing);
      KeepsTransitive(s, s1, After(s1, events[1..], indexing));
    }
  }

  // So following successors ends, at an entry that has none: it is not superseded, unless it is a pattern that was
  // retired.
  ghost function Newest(s: L.State, id: EntryId): (last: EntryId)
    requires Linked(s) && id in s.entries
    ensures last in s.entries && id <= last && s.entries[last].supersededBy.None?
    ensures s.entries[last].status == Superseded ==> s.entries[last].kind == DistilledPattern
    decreases s.nextId - id
  {
    assert LinkedEntry(s.entries[id], id, s.entries);
    if s.entries[id].supersededBy.None? then id else Newest(s, s.entries[id].supersededBy.value)
  }

  // The entry is there and not active, before the run and after each of its events.
  ghost predicate StaysRetired(s: L.State, events: seq<Event>, indexing: bool, id: EntryId)
    decreases |events|
  {
    && id in s.entries && s.entries[id].status != Active
    && (events == [] || StaysRetired(EventStep(s, events[0], indexing), events[1..], indexing, id))
  }

  // No event of the run, where it comes, reaches the entry to revive it.
  ghost predicate NeverRevived(s: L.State, events: seq<Event>, indexing: bool, id: EntryId)
    decreases |events|
  {
    events == []
    || (!Revives(s, events[0], id) && NeverRevived(EventStep(s, events[0], indexing), events[1..], indexing, id))
  }

  // Over every run of calls, promotions and reversals, under every fault: what is retired stays retired if and only if
  // no reversal and no compensation of the run reaches it.
  lemma {:induction false} RetiredExactly(s: L.State, events: seq<Event>, indexing: bool, id: EntryId)
    requires Linked(s) && Enabling(s, events, indexing) && id in s.entries && s.entries[id].status != Active
    ensures StaysRetired(s, events, indexing, id) <==> NeverRevived(s, events, indexing, id)
    decreases |events|
  {
    if events == [] {
    } else {
      var s1 := EventStep(s, events[0], indexing);
      EventRevivesExactly(s, events[0], indexing, id);
      EventKeeps(s, events[0], indexing);
      if s1.entries[id].status != Active {
        RetiredExactly(s1, events[1..], indexing, id);
      }
    }
  }

  lemma {:induction false} RetiredAtTheEnd(s: L.State, events: seq<Event>, indexing: bool, id: EntryId)
    requires StaysRetired(s, events, indexing, id)
    ensures id in After(s, events, indexing).entries && After(s, events, indexing).entries[id].status != Active
    decreases |events|
  {
    if events == [] {
    } else {
      RetiredAtTheEnd(EventStep(s, events[0], indexing), events[1..], indexing, id);
    }
  }

  // Deletes and supersessions leave vectors in place, yet what was retired is found by no query for active entries as
  // long as nothing revives it.
  lemma RetiredIsNeverRetrieved(s: L.State, events: seq<Event>, indexing: bool, id: EntryId, hits: seq<(EntryId, real)>,
                                filter: Option<QueryFilter>)
    requires Linked(s) && Enabling(s, events, indexing) && id in s.entries && s.entries[id].status != Active
    requires NeverRevived(s, events, indexing, id) && OnlyActive(filter)
    ensures forall x :: x in ReadHits(After(s, events, indexing).entries, hits, filter) ==> x.entry.id != id
  {
    RetiredExactly(s, events, indexing, id);
    RetiredAtTheEnd(s, events, indexing, id);
    RunKeeps(s, events, indexing);
    var m := After(s, events, indexing).entries;
    assert Keyed(m);
    ReadHitsVisible(m, hits, filter);
  }

  // No query without a filter returns the entry, before the run and after each of its events.
  ghost predicate StaysHidden(s: L.State, events: seq<Event>, indexing: bool, id: EntryId, hits: seq<(EntryId, real)>)
    decreases |events|
  {
    && (forall x :: x in ReadHits(s.entries, hits, None) ==> x.entry.id != id)
    && (events == [] || StaysHidden(EventStep(s, events[0], indexing), events[1..], indexing, id, hits))
  }

  // Whatever the index finds, as long as it finds the entry: a retired entry stays hidden if and only if nothing in the
  // run revives it.
  lemma {:induction false} HiddenExactly(s: L.State, events: seq<Event>, indexing: bool, id: EntryId,
                                         hits: seq<(EntryId, real)>)
    requires Linked(s) && Enabling(s, events, indexing) && id in s.entries && s.entries[id].status != Active
    requires exists k :: 0 <= k < |hits| && hits[k].0 == id
    ensures StaysHidden(s, events, indexing, id, hits) <==> NeverRevived(s, events, indexing, id)
    decreases |events|
  {
    FoundById(s.entries, hits, None, id);
    if events == [] {
    } else {
      var s1 := EventStep(s, events[0], indexing);
      EventRevivesExactly(s, events[0], indexing, id);
      EventKeeps(s, events[0], indexing);
      if s1.entries[id].status == Active {
        FoundById(s1.entries, hits, None, id);
      } else {
        HiddenExactly(s1, events[1..], indexing, id, hits);
      }
    }
  }

  // A soft-deleted record is found again once the pattern it went into has been reversed.
  lemma DeletedIsRetrievedAgain() returns (s: L.State, id: EntryId, e: Event, hits: seq<(EntryId, real)>)
    ensures Linked(s) && Enabled(s, e) && id in s.entries && s.entries[id].status == SoftDeleted
    ensures exists x :: x in ReadHits(EventStep(s, e, false).entries, hits, None) && x.entry.id == id
  {
    var record, pattern := Record(1, SoftDeleted, Some(2)), Pattern(2, 1);
    var m: Entries := map[1 := record, 2 := pattern];
    assert m[1] == record && m[2] == pattern;
    s, id, e, hits := L.State(m, map[], map[], map[1 := "met"], 3), 1, Reversal(2, n => 4, None), [(1, 1.0)];
    assert hits[0].0 == id;
    assert pattern.sources[0] == 1 && 1 in Unique(pattern.sources);
    EventRevivesExactly(s, e, false, id);
    EventKeeps(s, e, false);
    FoundById(EventStep(s, e, false).entries, hits, None, id);
  }

  /******* The log and the index of a mixed run *******/

  ghost function EventLogged(s: L.State, e: Event, indexing: bool): seq<MutationId>
    requires Enabled(s, e)
  {
    match e
    case Govern(call) => W.Logged(L.Step(s, call, indexing).1)
    case Submit(call) => W.Logged(W.SubmitStep(s, call, indexing).1)
    case Promotion(pattern, _, _, _) => if LogsPromotion(s, e) then [Issued(pattern.id + 1)] else []
    case Reversal(_, _, _) => []
  }

  // The mutation ids of all calls that returned and all promotions that went through with a sink, in order.
  ghost function RunLogged(s: L.State, events: seq<Event>, indexing: bool): seq<MutationId>
    requires Enabling(s, events, indexing)
    decreases |events|
  {
    if events == [] then []
    else EventLogged(s, events[0], indexing) + RunLogged(EventStep(s, events[0], indexing), events[1..], indexing)
  }

  lemma CallGrows(s: L.State, call: L.Call, indexing: bool)
    ensures var (s', result) := L.Step(s, call, indexing); W.Grows(s.audit, W.Logged(result), s'.audit)
  {
    var (s', result) := L.Step(s, call, indexing);
    assert L.Recorded(s.audit, s'.audit, result) by { L.OneRecordPerCall(s, call, indexing); }
    W.GrowsOne(s.audit, s'.audit, result);
  }

  lemma SubmissionGrows(s: L.State, call: L.Call, indexing: bool)
    requires call.Write?
    ensures var (s', result) := W.SubmitStep(s, call, indexing); W.Grows(s.audit, W.Logged(result), s'.audit)
  {
    var (s', result) := W.SubmitStep(s, call, indexing);
    assert L.Recorded(s.audit, s'.audit, result) by { W.SubmitIsRecorded(s, call, indexing); }
    W.GrowsOne(s.audit, s'.audit, result);
  }

  lemma PromotionGrows(s: L.State, e: Event, indexing: bool)
    requires e.Promotion? && Enabled(s, e)
    ensures W.Grows(s.audit, EventLogged(s, e, indexing), EventStep(s, e, indexing).audit)
  {
    if LogsPromotion(s, e) {
      var s1, id := PromotedState(s, e.pattern, e.tick, e.faults), Issued(e.pattern.id + 1);
      var record := RecordOfPromotion(e.pattern, e.log.value);
      var s', result := L.Append(s1, id, record), L.Returned(true, id, record.resulting, record.tombstone);
      assert EventStep(s, e, indexing) == s' && EventLogged(s, e, indexing) == W.Logged(result);
      L.AppendRecords(s1, s.audit, id, record, true);
      W.GrowsOne(s.audit, s'.audit, result);
    } else {
      W.GrowsNone(s.audit);
    }
  }

  // What the record of a promotion says: that the pattern, in its project, superseded others at the given moment.
  // Without a sink, or if the promotion did not go through, the log is as it was.
  lemma PromotionIsRecorded(s: L.State, e: Event, indexing: bool)
    requires e.Promotion? && Enabled(s, e)
    ensures
      var audit, audit' := s.audit, EventStep(s, e, indexing).audit;
      var id := Issued(e.pattern.id + 1);
      if e.log.None? || Persisted(s.entries, e.pattern, e.tick, e.faults).1 != Promoted then audit' == audit
      else
        && id in audit' && audit' == audit[id := audit'[id]]
        && audit'[id] == L.AuditRecord(L.LastSequence(audit) + 1, L.Supersede, L.Applied, e.pattern.project, None,
                                       Some(e.pattern.id), None, e.log.value)
  {
    if LogsPromotion(s, e) {
      var s1 := PromotedState(s, e.pattern, e.tick, e.faults);
      assert EventStep(s, e, indexing) ==
             L.Append(s1, Issued(e.pattern.id + 1), RecordOfPromotion(e.pattern, e.log.value));
    }
  }

  lemma EventGrows(s: L.State, e: Event, indexing: bool)
    requires Enabled(s, e)
    ensures W.Grows(s.audit, EventLogged(s, e, indexing), EventStep(s, e, indexing).audit)
  {
    match e
    case Govern(call) => CallGrows(s, call, indexing);
    case Submit(call) => SubmissionGrows(s, call, indexing);
    case Promotion(_, _, _, _) => PromotionGrows(s, e, indexing);
    case Reversal(_, _, _) => W.GrowsNone(s.audit);
  }

  lemma {:induction false} RunGrows(s: L.State, events: seq<Event>, indexing: bool)
    requires Enabling(s, events, indexing)
    ensures W.Grows(s.audit, RunLogged(s, events, indexing), After(s, events, indexing).audit)
    decreases |events|
  {
    if events == [] {
      W.GrowsNone(s.audit);
    } else {
      var s1 := EventStep(s, events[0], indexing);
      EventGrows(s, events[0], indexing);
      RunGrows(s1, events[1..], indexing);
      W.GrowsOn(s.audit, EventLogged(s, events[0], indexing), s1.audit, RunLogged(s1, events[1..], indexing),
                After(s1, events[1..], indexing).audit);
    }
  }

  // Over every mixed run, under every fault: the log holds a record of its own for every call that returned and every
  // promotion that went through if and only if no mutation id repeats, and is then numbered 1..n without a gap.
  lemma SharedLogIsComplete(s: L.State, events: seq<Event>, indexing: bool)
    requires Enabling(s, events, indexing) && L.Numbered(s.audit)
    ensures
      var ids, audit := RunLogged(s, events, indexing), After(s, events, indexing).audit;
      && (forall id :: id in audit <==> id in s.audit || id in ids)
      && (|audit| == |s.audit| + |ids| <==> W.AllNew(s.audit, ids))
      && (W.AllNew(s.audit, ids) ==> L.Numbered(audit))
  {
    RunGrows(s, events, indexing);
  }

  // Only calls index entries; promotions and reversals leave the vectors alone.
  predicate EventStrands(s: L.State, e: Event, indexing: bool) {
    match e
    case Govern(call) => L.StrandsVector(s, call, indexing)
    case Submit(call) => call.Write? && W.Strands(call, indexing)
    case Promotion(_, _, _, _) => false
    case Reversal(_, _, _) => false
  }

  ghost predicate NeverStrands(s: L.State, events: seq<Event>, indexing: bool)
    decreases |events|
  {
    events == []
    || (!EventStrands(s, events[0], indexing) && NeverStrands(EventStep(s, events[0], indexing), events[1..], indexing))
  }

  lemma EventBackedExactly(s: L.State, e: Event, indexing: bool)
    requires Linked(s) && Enabled(s, e) && L.Backed(s)
    ensures L.Backed(EventStep(s, e, indexing)) <==> !EventStrands(s, e, indexing)
  {
    match e
    case Govern(call) => L.IndexBackedExactly(s, call, indexing);
    case Submit(call) => W.SubmitIndexBackedExactly(s, call, indexing);
    case Promotion(_, _, _, _) =>
      PromotionKeeps(s, e, indexing);
      assert EventStep(s, e, indexing).index == s.index;
    case Reversal(pattern, clock, failAfter) =>
      ReversalKeeps(s, pattern, clock, failAfter);
      assert EventStep(s, e, indexing).index == s.index;
  }

  // Over every mixed run from a backed state, every vector belongs to an entry at the end if and only if no call of the
  // run stranded one: the pattern a rollback removes was never indexed.
  lemma {:induction false} SharedIndexExactly(s: L.State, events: seq<Event>, indexing: bool)
    requires Linked(s) && Enabling(s, events, indexing) && L.Backed(s)
    ensures L.Backed(After(s, events, indexing)) <==> NeverStrands(s, events, indexing)
    decreases |events|
  {
    if events == [] {
    } else {
      var s1 := EventStep(s, events[0], indexing);
      EventBackedExactly(s, events[0], indexing);
      EventKeeps(s, events[0], indexing);
      if L.Backed(s1) {
        SharedIndexExactly(s1, events[1..], indexing);
      } else {
        RunKeeps(s1, events[1..], indexing);
        L.UnbackedStays(s1, After(s1, events[1..], indexing));
      }
    }
  }
}
